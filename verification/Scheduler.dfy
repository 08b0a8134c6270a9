/** The scheduler as the C code keeps it: globals overwritten step by step.  Each method
    is proved to do exactly one step of the machine, or a part of one. */
module Schedulers {
  import opened Options
  import opened Registry
  import opened CidSpec
  import opened CidMaps
  import opened Machine
  import opened Invariants
  import opened Preservation

  /** The fields of COROG outside the saved registers. */
  datatype Corog = Corog(coroNum: int, maxCoroNum: int, origin: Vm, require: bool)

  /** `checkPoint`, the jmp_bufs, and the locals of the C functions below the PHP code. */
  datatype CStack = CStack(checkPoint: nat, jmp: map<nat, nat>, frames: seq<Frame>)

  datatype Memory = Memory(contexts: map<nat, Regs>, tasks: map<nat, Task>, next: nat)

  datatype History = History(
    refused: nat,
    resumable: set<int>,
    place: map<nat, Place>,
    resumed: multiset<nat>,
    released: multiset<nat>,
    callbacks: set<nat>,
    freed: multiset<nat>)

  class Scheduler {
    const cidmap: CidMap
    var corog: Corog
    var regs: Regs
    var stack: CStack
    var memory: Memory
    var cidContextMap: map<int, nat>
    var table: Table
    ghost var history: History

    /** The machine state these globals stand for. */
    ghost function View(): State
      reads this, cidmap
    {
      State(CidState(cidmap.used, cidmap.lastCid),
            corog.coroNum, corog.maxCoroNum, corog.origin, regs, corog.require,
            stack.checkPoint, stack.jmp, stack.frames, memory.contexts, memory.tasks, cidContextMap, table, memory.next,
            history.refused, history.resumable, history.place, history.resumed, history.released,
            history.callbacks, history.freed)
    }

    ghost predicate Valid()
      reads this, cidmap, cidmap.page
    {
      cidmap.Valid() && Inv(View())
    }

    /** `coro_init`, called by the first create from main. */
    constructor (max: int, vm: Vm, ex: Exec)
      ensures cidmap.Valid() && fresh(cidmap) && fresh(cidmap.page)
      ensures View() == Init(max, vm, ex)
    {
      cidmap := new CidMap();
      corog := Corog(0, if max <= 0 then DEFAULT_MAX_CORO_NUM else max, vm, false);
      regs := Regs(vm, ex, None, 0);
      stack := CStack(BASE, map[BASE := 0], []);
      memory := Memory(map[], map[], 1);
      cidContextMap := map[];
      table := EMPTY_TABLE;
      history := History(0, {}, map[], multiset{}, multiset{}, {}, multiset{});
    }

    // ----- coroutine_util.c and coroutine.c: into a coroutine

    /** `c_coro_save`. */
    method Save() returns (saved: Regs)
      ensures saved == regs
    {
      saved := Regs(regs.vm, regs.ex, regs.task, regs.retPtr);
    }

    /** `c_coro_resume_parent`. */
    method ResumeParent(saved: Regs)
      modifies this`regs
      ensures regs == saved
    {
      regs := regs.(vm := saved.vm);
      regs := regs.(ex := saved.ex);
      regs := regs.(task := saved.task);
      regs := regs.(retPtr := saved.retPtr);
    }

    /** What `coroutine_create` does with its callback once `coro_create` is back. */
    method Settle(callback: nat)
      requires SettleCallback(View(), callback).Ok?
      modifies this`memory, this`history
      ensures SettleCallback(old(View()), callback) == Ok(View())
    {
      match regs.task
      case Some(t) =>
        memory := memory.(tasks := memory.tasks[t := memory.tasks[t].(callback := Some(callback))]);
      case None =>
        history := history.(freed := history.freed + multiset{callback});
    }

    method RefusedCreate()
      requires Refuse(View(), View().cids).Ok?
      modifies this`memory, this`history, this`regs, this`corog
      ensures Refuse(old(View()), old(View().cids)) == Ok(View())
    {
      var callback := memory.next;
      memory := memory.(next := memory.next + 3);
      var saved := Save();
      var required := corog.require;
      history := history.(callbacks := history.callbacks + {callback}, refused := history.refused + 1);
      ghost var before := View();
      Settle(callback);
      SettleKeepsRegs(before, callback);
      ResumeParent(saved);
      corog := corog.(require := required);
    }

    method AdmittedCreate(cid: int, vm: Vm, ex: Exec, retPtr: nat)
      modifies this
      ensures View() == Admit(old(View()), cid, old(View().cids), vm, ex, retPtr)
    {
      var callback, buffer, task := memory.next, memory.next + 1, memory.next + 2;
      memory := memory.(next := memory.next + 3);
      var prevCheckPoint := stack.checkPoint;
      stack := stack.(checkPoint := buffer);
      var saved := Save();
      var required := corog.require;
      regs := regs.(vm := vm, task := Some(task));
      regs := regs.(retPtr := retPtr);
      regs := regs.(ex := ex);
      corog := corog.(coroNum := corog.coroNum + 1);
      memory := memory.(tasks := memory.tasks[task := Task(cid, None)]);
      corog := corog.(require := true);
      history := history.(callbacks := history.callbacks + {callback},
                          place := history.place[task := Active(|stack.frames|)]);
      stack := stack.(frames := stack.frames + [CreateFrame(prevCheckPoint, required, saved, callback, task)]);
      stack := stack.(jmp := stack.jmp[stack.checkPoint := |stack.frames|]);
    }

    method TakeCid() returns (cid: int)
      requires cidmap.Valid()
      modifies cidmap, cidmap.page
      ensures cidmap.Valid() && cidmap.page == old(cidmap.page)
      ensures AllocCid(old(View().cids)) == (cid, View().cids)
      ensures View() == old(View()).(cids := View().cids)
    {
      CounterAgrees(cidmap.State());
      cid := cidmap.Alloc();
    }

    /** `coroutine_create` and `c_coro_create` down to `zend_execute_ex`, which gets the
        stack, frame and return value the VM allocated. */
    method CoroutineCreate(vm: Vm, ex: Exec, retPtr: nat)
      requires cidmap.Valid() && Create(View(), vm, ex, retPtr).Ok?
      modifies this, cidmap, cidmap.page
      ensures cidmap.Valid() && cidmap.page == old(cidmap.page)
      ensures Create(old(View()), vm, ex, retPtr) == Ok(View())
    {
      ghost var before := View();
      var cid := TakeCid();
      ghost var cids := View().cids;
      CreateWithCid(before, cid, cids, vm, ex, retPtr);
      if corog.coroNum >= corog.maxCoroNum && cid != -1 {
        RefusedCreate();
      } else {
        AdmittedCreate(cid, vm, ex, retPtr);
      }
    }

    /** `c_coro_resume` down to `zend_execute_ex`, called from the C frame `frame`. */
    method CoroResume(frame: Frame, context: nat)
      requires Enter(View(), frame, context).Ok?
      modifies this`regs, this`corog, this`stack, this`history
      ensures Enter(old(View()), frame, context) == Ok(View())
    {
      var saved := memory.contexts[context];
      regs := regs.(vm := saved.vm);
      regs := regs.(ex := saved.ex.prev);
      regs := regs.(task := saved.task);
      corog := corog.(require := true);
      regs := regs.(retPtr := saved.retPtr);
      history := history.(place := history.place[saved.task.value := Active(|stack.frames|)],
                          resumed := history.resumed + multiset{context});
      stack := stack.(frames := stack.frames + [frame]);
      stack := stack.(jmp := stack.jmp[stack.checkPoint := |stack.frames|]);
    }

    /** `coroutine::resume` down to the VM; false when the map entry is null. */
    method CoroutineResume(cid: int) returns (found: bool)
      requires Resume(View(), cid).Ok?
      modifies this
      ensures Resume(old(View()), cid) == Ok(View())
      ensures found <==> cid in old(cidContextMap)
    {
      if cid !in cidContextMap {
        return false;
      }
      var prevCheckPoint := stack.checkPoint;
      var context := cidContextMap[cid];
      stack := stack.(checkPoint := memory.next);
      memory := memory.(next := memory.next + 1);
      var required := corog.require;
      var saved := Save();
      history := history.(resumable := history.resumable - {cid});
      CoroResume(ResumeFrame(prevCheckPoint, required, saved, context, memory.contexts[context].task.value), context);
      return true;
    }

    // ----- coroutine_event.c

    /** `_aio_event_store`; `added` is the kernel's answer to EPOLL_CTL_ADD. */
    method EventStore(fd: int, context: nat, req: Request, added: bool) returns (ok: bool)
      modifies this`table
      ensures Stored(table, ok) == Store(old(table), fd, context, req, added)
    {
      var ev := ZERO_EVENT;
      if fd !in table.events {
        table := table.(events := table.events[fd := ev], address := table.address[fd := table.nextAddress],
                        nextAddress := table.nextAddress + 1);
      } else {
        ev := table.events[fd];
      }
      if ev.mask == 0 {
        ev := ev.(mask := req.mask);
        table := table.(events := table.events[fd := ev]);
        if !added {
          table := table.(events := table.events - {fd}, address := table.address - {fd});
          assert table.events == old(table.events) - {fd} && table.address == old(table.address) - {fd};
          return false;
        }
        table := table.(epoll := table.epoll + {fd});
      }
      if ev.context.None? {
        ev := ev.(context := Some(context), functionName := req.functionName, arguments := req.arguments,
                  argsCount := req.argsCount, timer := req.timer, fdType := req.fdType);
        table := table.(events := table.events[fd := ev]);
      }
      return true;
    }

    /** `aio_event_free` on the entry of `fd`. */
    method EventFree(fd: int)
      modifies this`table
      ensures table == Registry.Free(old(table), fd)
    {
      if fd !in table.events {
        return;
      }
      var epoll := table.epoll;
      var ev := table.events[fd].(context := None, argsCount := 0);
      if ev.arguments.Some? {
        ev := ev.(arguments := None);
      }
      if ev.fdType == FD_ACCEPT {
        epoll := epoll - {fd};
        ev := ev.(mask := 0);
      } else if ev.fdType == FD_TIMER {
        epoll := epoll - {fd};
        ev := ev.(mask := 0);
        if ev.timer.Some? {
          ev := ev.(timer := None);
        }
      } else if ev.fdType == FD_NORMAL {
        epoll := epoll - {fd};
        ev := ev.(mask := 0);
      }
      table := table.(events := table.events[fd := ev.(fdType := 0)], epoll := epoll);
    }

    /** `aio_invoke` on the entry of `fd`, down to the VM: the call is made and the entry
        cleared before its waiter runs. */
    method AioInvoke(fd: int) returns (call: Option<Call>)
      requires Dispatch(View(), fd).Ok?
      modifies this
      ensures Dispatch(old(View()), fd) == Ok(View())
      ensures call == CallMade(old(table), fd)
    {
      if fd !in table.events {
        return None;
      }
      var event, entry := table.events[fd], AddressOf(table, fd);
      call := None;
      if event.functionName.Some? {
        call := Some(Call(event.functionName.value, event.arguments, event.argsCount));
      }
      EventFree(fd);
      if event.context.Some? {
        var context := event.context.value;
        CoroResume(InvokeFrame(fd, entry, context, memory.contexts[context].task.value), context);
      }
    }

    // ----- out of a coroutine

    method ReleaseContext(context: nat)
      requires context in memory.contexts
      modifies this`memory, this`history
      ensures Machine.Release(old(View()), context) == Ok(View())
    {
      memory := memory.(contexts := memory.contexts - {context});
      history := history.(released := history.released + multiset{context});
    }

    /** The common end of `coroutine_create` and `coroutine::resume`. */
    method Restore(prevCheckPoint: nat, saved: Regs, required: bool)
      requires stack.checkPoint in stack.jmp
      modifies this`stack, this`regs, this`corog
      ensures RestoreParent(old(View()), prevCheckPoint, saved, required) == Ok(View())
    {
      stack := stack.(jmp := stack.jmp - {stack.checkPoint});
      stack := stack.(checkPoint := prevCheckPoint);
      ResumeParent(saved);
      corog := corog.(require := required);
    }

    /** What the innermost C function does once the coroutine it ran ended or yielded. */
    method FrameReturns()
      requires Return(View()).Ok?
      modifies this`memory, this`history, this`stack, this`regs, this`corog
      ensures Return(old(View())) == Ok(View())
    {
      var frame := stack.frames[|stack.frames| - 1];
      stack := stack.(frames := stack.frames[..|stack.frames| - 1]);
      corog := corog.(require := false);
      match frame
      case CreateFrame(prevCheckPoint, required, saved, callback, _) =>
        Settle(callback);
        Restore(prevCheckPoint, saved, required);
      case ResumeFrame(prevCheckPoint, required, saved, context, _) =>
        ReleaseContext(context);
        Restore(prevCheckPoint, saved, required);
      case InvokeFrame(fd, entry, context, _) =>
        ReleaseContext(context);
        var functionName := table.events[fd].functionName;
    }

    /** `coro_yield`: the longjmp drops every C frame above the one that filled the
        checkpoint. */
    method CoroYield()
      requires Jump(View()).Ok?
      modifies this`memory, this`history, this`stack, this`regs, this`corog
      ensures Jump(old(View())) == Ok(View())
    {
      regs := regs.(vm := corog.origin);
      var depth := stack.jmp[stack.checkPoint];
      stack := stack.(frames := stack.frames[..depth]);
      FrameReturns();
    }

    method SaveUnderCid(t: nat, cid: int)
      modifies this`memory, this`cidContextMap, this`history
      ensures View() == SaveByCid(old(View()), t, cid)
    {
      var context := memory.next;
      memory := memory.(next := memory.next + 1);
      var saved := Save();
      memory := memory.(contexts := memory.contexts[context := saved]);
      cidContextMap := cidContextMap[cid := context];
      history := history.(resumable := history.resumable + {cid}, place := history.place[t := OnCid(context)]);
    }

    /** `coroutine::yield`. */
    method CoroutineYield()
      requires Yield(View()).Ok?
      modifies this`memory, this`cidContextMap, this`history, this`stack, this`regs, this`corog
      ensures Yield(old(View())) == Ok(View())
    {
      var t := regs.task.value;
      SaveUnderCid(t, memory.tasks[t].cid);
      CoroYield();
    }

    method SaveUnderFd(fd: int, context: nat)
      requires regs.task.Some? && memory.next == context
      modifies this`memory, this`history
      ensures View() == SaveByFd(old(View()), table, fd)
    {
      memory := memory.(next := memory.next + 1);
      var saved := Save();
      memory := memory.(contexts := memory.contexts[context := saved]);
      history := history.(place := history.place[regs.task.value := PlaceAfterWait(table, fd, context)]);
    }

    /** A wait method; false when the store failed and the coroutine goes on. */
    method SocketWait(fd: int, req: Request, added: bool) returns (suspended: bool)
      requires Wait(View(), fd, req, added).Ok? && regs.task.Some?
      modifies this`table, this`memory, this`history, this`stack, this`regs, this`corog
      ensures Wait(old(View()), fd, req, added) == Ok(View())
      ensures suspended <==> Store(old(table), fd, old(memory.next), req, added).ok
    {
      var context := memory.next;
      ghost var before := View();
      suspended := EventStore(fd, context, req, added);
      if suspended {
        WaitWithTable(before, fd, req, added, table);
        SaveUnderFd(fd, context);
        CoroYield();
      } else {
        DropContext(context);
      }
    }

    /** A wait whose store failed: `efree(context)`. */
    method DropContext(context: nat)
      requires memory.next == context
      modifies this`memory, this`history
      ensures View() == old(View()).(next := context + 1, released := old(history.released) + multiset{context})
    {
      memory := memory.(next := memory.next + 1);
      history := history.(released := history.released + multiset{context});
    }

    /** `coro_close`. */
    method CoroClose(t: nat)
      requires cidmap.Valid() && regs.task == Some(t) && t in memory.tasks
      requires 1 <= memory.tasks[t].cid <= MAX_CID && memory.tasks[t].cid - 1 in cidmap.used
      modifies this, cidmap, cidmap.page
      ensures cidmap.Valid() && cidmap.page == old(cidmap.page)
      ensures View() == CloseTask(old(View()), t)
    {
      history := history.(freed := history.freed + Owed(memory.tasks[t]), place := history.place - {t});
      cidmap.Free(memory.tasks[t].cid);
      regs := regs.(vm := corog.origin);
      corog := corog.(coroNum := corog.coroNum - 1);
      regs := regs.(task := None);
      memory := memory.(tasks := memory.tasks - {t});
    }

    /** The coroutine's function returns into `c_coro_create` or `c_coro_resume`. */
    method CoroutineEnd()
      requires cidmap.Valid() && End(View()).Ok?
      modifies this, cidmap, cidmap.page
      ensures cidmap.Valid() && cidmap.page == old(cidmap.page)
      ensures End(old(View())) == Ok(View())
    {
      CoroClose(regs.task.value);
      FrameReturns();
    }

    /** `coroutine::socket_close`, after PHP's own close of the descriptor. */
    method SocketClose(fd: int)
      requires Machine.SocketClose(View(), fd).Ok?
      modifies this`table, this`history
      ensures Machine.SocketClose(old(View()), fd) == Ok(View())
    {
      ghost var e := EntryOf(table, fd);
      if e.context.Some? {
        history := history.(place := history.place[TaskOf(View(), e.context.value) := Lost(e.context.value)]);
      }
      table := table.(epoll := table.epoll - {fd});
      EventFree(fd);
    }

    /** `coroutine::get_current_cid`. */
    method GetCurrentCid() returns (cid: int)
      requires CurrentCid(View()).Some?
      ensures Some(cid) == CurrentCid(View())
    {
      cid := memory.tasks[regs.task.value].cid;
    }

    method Execute(a: Action)
      requires cidmap.Valid() && Step(View(), a).Ok? && (a.DoWait? ==> regs.task.Some?)
      modifies this, cidmap, cidmap.page
      ensures cidmap.Valid() && cidmap.page == old(cidmap.page)
      ensures Step(old(View()), a) == Ok(View())
    {
      match a
      case DoCreate(vm, ex, retPtr) => CoroutineCreate(vm, ex, retPtr);
      case DoResume(cid) => var _ := CoroutineResume(cid);
      case DoDispatch(fd) => var _ := AioInvoke(fd);
      case DoYield => CoroutineYield();
      case DoWait(fd, req, added) => var _ := SocketWait(fd, req, added);
      case DoEnd => CoroutineEnd();
      case DoSocketClose(fd) => SocketClose(fd);
      case DoForeignClose(fd) => table := table.(epoll := table.epoll - {fd});
      case DoRun(vm, ex) => regs := regs.(vm := vm, ex := ex);
    }

    /** Any disciplined action, with an id left for a create, that neither hits a dead task
        nor reads a freed entry: the globals keep the invariant and take exactly the
        machine's step. */
    method Perform(a: Action)
      requires Valid() && Disciplined(View(), a) && IdLeft(View(), a) && !GoesWrong(View(), a)
      modifies this, cidmap, cidmap.page
      ensures Valid() && cidmap.page == old(cidmap.page)
      ensures Step(old(View()), a) == Ok(View())
    {
      ghost var r := StepKeeps(View(), a);
      Execute(a);
    }
  }

  /** Which way a create goes depends on the id alone; both ways put it into the map. */
  lemma CreateWithCid(s: State, cid: int, cids: CidState, vm: Vm, ex: Exec, retPtr: nat)
    requires AllocCid(s.cids) == (cid, cids)
    ensures var taken := s.(cids := cids);
      Create(s, vm, ex, retPtr) ==
      if AtCap(s) && cid != -1 then Refuse(taken, cids) else Ok(Admit(taken, cid, cids, vm, ex, retPtr))
  {
  }

  lemma SettleKeepsRegs(s: State, callback: nat)
    requires SettleCallback(s, callback).Ok?
    ensures var r := SettleCallback(s, callback).state; r.regs == s.regs && r.require == s.require
  {
  }

  lemma WaitWithTable(s: State, fd: int, req: Request, added: bool, r: Table)
    requires IsFd(fd) && Store(s.table, fd, s.next, req, added) == Stored(r, true)
    ensures Wait(s, fd, req, added) == Jump(SaveByFd(s.(table := r), r, fd))
  {
    assert SaveByFd(s.(table := r), r, fd) == SaveByFd(s, r, fd);
  }
}
