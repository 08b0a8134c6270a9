/** The scheduler as a state machine.  A C function that runs PHP code is cut at the
    point where control enters the VM, so a step is what happens between two moments at
    which PHP code runs: a call into the extension, or the return out of it. */
module Machine {
  import opened Options
  import opened Registry
  import opened CidSpec

  const MAX_CID: int := 32768
  const DEFAULT_MAX_CORO_NUM: int := 3000

  // ----- values the VM owns, kept opaque

  datatype Vm = Vm(stack: nat, top: nat, end: nat)

  /** A chain of execute_data frames. */
  datatype Exec = NoExec | Exec(id: nat, prev: Exec)

  /** The call frame of an extension method, called from a PHP frame. */
  predicate InCall(ex: Exec) {
    ex.Exec? && ex.prev.Exec?
  }

  /** The registers `c_coro_save` copies: vm_stack, top and end, current_execute_data,
      current_coro and allocated_return_value_ptr.  Also the contents of a php_context. */
  datatype Regs = Regs(vm: Vm, ex: Exec, task: Option<nat>, retPtr: nat)

  /** A `coro_task`; `callback` is the callback copy it owns. */
  datatype Task = Task(cid: int, callback: Option<nat>)

  /** The locals of the C functions below the PHP code that runs now, innermost last.
      `task` is the coroutine the frame runs. */
  datatype Frame =
    | CreateFrame(prev: nat, required: bool, saved: Regs, callback: nat, task: nat)
    | ResumeFrame(prev: nat, required: bool, saved: Regs, context: nat, task: nat)
    | InvokeFrame(fd: int, entry: nat, context: nat, task: nat)

  /** Where a live coroutine is. */
  datatype Place =
    | Active(depth: nat)
    | OnFd(fd: int, context: nat)
    | OnCid(context: nat)
    | Lost(context: nat)

  /** `jmp` maps an allocated jmp_buf to the depth of the frame whose setjmp filled it
      (0: not filled yet).  Pointers are numbers from a counter that never comes back.
      The fields from `refused` on are history, which no step reads, except that freeing a
      callback copy twice is a fault. */
  datatype State = State(
    cids: CidState,
    coroNum: int,
    maxCoroNum: int,
    origin: Vm,
    regs: Regs,
    require: bool,
    checkPoint: nat,
    jmp: map<nat, nat>,
    frames: seq<Frame>,
    contexts: map<nat, Regs>,
    tasks: map<nat, Task>,
    cidMap: map<int, nat>,
    table: Table,
    next: nat,
    refused: nat,
    resumable: set<int>,
    place: map<nat, Place>,
    resumed: multiset<nat>,
    released: multiset<nat>,
    callbacks: set<nat>,
    freed: multiset<nat>)

  /** `Fault` is undefined behaviour in C: a jump to a dead frame, an access to freed
      memory, a double free or an index outside an array. */
  datatype Outcome = Ok(state: State) | Fault

  // ----- coro_init

  /** The buffer `coro_init` allocates. */
  const BASE: nat := 0

  /** The state in which the first create starts, called from main on the stack `vm`. */
  function Init(max: int, vm: Vm, ex: Exec): State {
    State(FRESH, 0, if max <= 0 then DEFAULT_MAX_CORO_NUM else max, vm,
          Regs(vm, ex, None, 0), false, BASE, map[BASE := 0], [], map[], map[], map[],
          EMPTY_TABLE, 1,
          0, {}, map[], multiset{}, multiset{}, {}, multiset{})
  }

  // ----- entering a coroutine

  function AtCap(s: State): bool {
    s.coroNum >= s.maxCoroNum
  }

  function AllocCid(c: CidState): (int, CidState) {
    if NrFree(c) == 0 then (-1, c)
    else var id := NextFree(c); (id + 1, CidState(c.used + {id}, id))
  }

  /** Hand the callback copy to the task `current_coro` points to, or free it. */
  function SettleCallback(s: State, callback: nat): Outcome {
    match s.regs.task
    case None => if callback in s.freed then Fault else Ok(s.(freed := s.freed + multiset{callback}))
    case Some(t) =>
      if t in s.tasks then Ok(s.(tasks := s.tasks[t := s.tasks[t].(callback := Some(callback))]))
      else Fault
  }

  /** A create refused by the limit: its id is taken all the same, and its callback is
      settled as if a coroutine had run. */
  function Refuse(s: State, cids: CidState): Outcome {
    SettleCallback(s.(cids := cids,
                      callbacks := s.callbacks + {s.next},
                      next := s.next + 3,
                      refused := s.refused + 1),
                   s.next)
  }

  /** A create that goes through, down to `zend_execute_ex`; the VM chooses the new stack,
      frame and return value. */
  function Admit(s: State, cid: int, cids: CidState, vm: Vm, ex: Exec, retPtr: nat): State {
    var callback, buffer, task := s.next, s.next + 1, s.next + 2;
    s.(cids := cids,
       callbacks := s.callbacks + {callback},
       next := s.next + 3,
       coroNum := s.coroNum + 1,
       regs := Regs(vm, ex, Some(task), retPtr),
       require := true,
       checkPoint := buffer,
       jmp := s.jmp[buffer := |s.frames| + 1],
       frames := s.frames + [CreateFrame(s.checkPoint, s.require, s.regs, callback, task)],
       tasks := s.tasks[task := Task(cid, None)],
       place := s.place[task := Active(|s.frames|)])
  }

  /** `coroutine_create` down to the VM.  The limit is not tested when no id was left. */
  function Create(s: State, vm: Vm, ex: Exec, retPtr: nat): Outcome {
    var (cid, cids) := AllocCid(s.cids);
    if AtCap(s) && cid != -1 then Refuse(s, cids) else Ok(Admit(s, cid, cids, vm, ex, retPtr))
  }

  /** `c_coro_resume` down to `zend_execute_ex`, called from the C frame `frame`. */
  function Enter(s: State, frame: Frame, context: nat): Outcome {
    if context !in s.contexts || s.contexts[context].task.None? || !InCall(s.contexts[context].ex) then Fault
    else
      var saved := s.contexts[context];
      Ok(s.(regs := saved.(ex := saved.ex.prev),
            require := true,
            jmp := s.jmp[s.checkPoint := |s.frames| + 1],
            frames := s.frames + [frame],
            place := s.place[saved.task.value := Active(|s.frames|)],
            resumed := s.resumed + multiset{context}))
  }

  function TaskOf(s: State, context: nat): nat {
    if context in s.contexts && s.contexts[context].task.Some? then s.contexts[context].task.value else 0
  }

  /** `coroutine::resume` down to the VM. */
  function Resume(s: State, cid: int): Outcome {
    if !(0 <= cid <= MAX_CID) then Fault
    else if cid !in s.cidMap then Ok(s)
    else
      var context := s.cidMap[cid];
      var buffer := s.next;
      Enter(s.(checkPoint := buffer, next := s.next + 1, resumable := s.resumable - {cid}),
            ResumeFrame(s.checkPoint, s.require, s.regs, context, TaskOf(s, context)),
            context)
  }

  /** `aio_invoke` on the entry of `fd`: the entry is cleared before the waiter runs, and
      no checkpoint is pushed. */
  function Dispatch(s: State, fd: int): Outcome {
    if !IsFd(fd) then Fault
    else if fd !in s.table.events then Ok(s)
    else
      var s1 := s.(table := Registry.Free(s.table, fd));
      match s.table.events[fd].context
      case None => Ok(s1)
      case Some(context) =>
        Enter(s1, InvokeFrame(fd, AddressOf(s.table, fd), context, TaskOf(s, context)), context)
  }

  // ----- leaving a coroutine

  /** `efree(context)`. */
  function Release(s: State, context: nat): Outcome {
    if context !in s.contexts then Fault
    else Ok(s.(contexts := s.contexts - {context}, released := s.released + multiset{context}))
  }

  /** `efree(checkPoint)`, then the caller's checkpoint, registers and `require` come back. */
  function RestoreParent(s: State, prev: nat, saved: Regs, required: bool): Outcome {
    if s.checkPoint !in s.jmp then Fault
    else Ok(s.(jmp := s.jmp - {s.checkPoint}, checkPoint := prev, regs := saved, require := required))
  }

  /** What the innermost C frame does after the coroutine ended or yielded. */
  function Return(s: State): Outcome {
    if s.frames == [] then Fault
    else
      var frame := s.frames[|s.frames| - 1];
      var s1 := s.(frames := s.frames[..|s.frames| - 1], require := false);
      match frame
      case CreateFrame(prev, required, saved, callback, _) =>
        var r := SettleCallback(s1, callback);
        if r.Fault? then Fault else RestoreParent(r.state, prev, saved, required)
      case ResumeFrame(prev, required, saved, context, _) =>
        var r := Release(s1, context);
        if r.Fault? then Fault else RestoreParent(r.state, prev, saved, required)
      case InvokeFrame(fd, entry, context, _) =>
        // the function name of the entry is read once more
        if !IsEntry(s1.table, fd, entry) then Fault else Release(s1, context)
  }

  /** `coro_yield`: back to the origin stack, then longjmp to whatever frame filled the
      current checkpoint; the frames above it are gone. */
  function Jump(s: State): Outcome {
    if s.checkPoint !in s.jmp then Fault
    else
      var depth := s.jmp[s.checkPoint];
      if depth == 0 || depth > |s.frames| then Fault
      else Return(s.(regs := s.regs.(vm := s.origin), frames := s.frames[..depth]))
  }

  /** `coroutine::yield` up to its `coro_yield`: the registers go into a fresh context,
      the context into the map under the coroutine's cid. */
  function SaveByCid(s: State, t: nat, cid: int): State {
    s.(contexts := s.contexts[s.next := s.regs],
       cidMap := s.cidMap[cid := s.next],
       next := s.next + 1,
       resumable := s.resumable + {cid},
       place := s.place[t := OnCid(s.next)])
  }

  function Yield(s: State): Outcome {
    if s.regs.task.None? || s.regs.task.value !in s.tasks then Fault
    else
      var t := s.regs.task.value;
      var cid := s.tasks[t].cid;
      if !(0 <= cid <= MAX_CID) then Fault else Jump(SaveByCid(s, t, cid))
  }

  function PlaceAfterWait(r: Table, fd: int, context: nat): Place {
    if EntryOf(r, fd).context == Some(context) then OnFd(fd, context) else Lost(context)
  }

  /** A wait method between a store that reported success and its `coro_yield`. */
  function SaveByFd(s: State, r: Table, fd: int): State {
    s.(table := r,
       contexts := s.contexts[s.next := s.regs],
       next := s.next + 1,
       place := if s.regs.task.None? then s.place
                else s.place[s.regs.task.value := PlaceAfterWait(r, fd, s.next)])
  }

  /** A wait method: store the request, and suspend if that reports success. */
  function Wait(s: State, fd: int, req: Request, added: bool): Outcome {
    if !IsFd(fd) then Fault
    else
      var out := Store(s.table, fd, s.next, req, added);
      if out.ok then Jump(SaveByFd(s, out.table, fd))
      else Ok(s.(table := out.table, next := s.next + 1, released := s.released + multiset{s.next}))
  }

  function Owed(task: Task): multiset<nat> {
    match task.callback
    case Some(k) => multiset{k}
    case None => multiset{}
  }

  /** Closing the task would free a callback copy a second time. */
  predicate OwesFreed(s: State, task: Task) {
    task.callback.Some? && task.callback.value in s.freed
  }

  /** `coro_close`. */
  function CloseTask(s: State, t: nat): State
    requires t in s.tasks
  {
    s.(freed := s.freed + Owed(s.tasks[t]),
       cids := CidState(s.cids.used - {s.tasks[t].cid - 1}, s.cids.last),
       coroNum := s.coroNum - 1,
       tasks := s.tasks - {t},
       place := s.place - {t},
       regs := s.regs.(vm := s.origin, task := None))
  }

  /** The coroutine function returns: `coro_close`, then the innermost frame goes on. */
  function End(s: State): Outcome {
    if s.regs.task.None? || s.regs.task.value !in s.tasks then Fault
    else
      var t := s.regs.task.value;
      var cid := s.tasks[t].cid;
      if !(1 <= cid <= MAX_CID) || cid - 1 !in s.cids.used || OwesFreed(s, s.tasks[t]) then Fault
      else Return(CloseTask(s, t))
  }

  // ----- steps that stay where they are

  /** `get_current_cid`; none where the pointer it follows is null or dangles. */
  function CurrentCid(s: State): Option<int> {
    match s.regs.task
    case None => None
    case Some(t) => if t in s.tasks then Some(s.tasks[t].cid) else None
  }

  /** `socket_close`; a context that waited on the descriptor is dropped. */
  function SocketClose(s: State, fd: int): Outcome {
    if !IsFd(fd) then Fault
    else
      var e := EntryOf(s.table, fd);
      Ok(s.(table := Close(s.table, fd),
            place := match e.context
                     case None => s.place
                     case Some(c) => s.place[TaskOf(s, c) := Lost(c)]))
  }

  datatype Action =
    | DoCreate(vm: Vm, ex: Exec, retPtr: nat)
    | DoResume(cid: int)
    | DoDispatch(fd: int)
    | DoYield
    | DoWait(fd: int, req: Request, added: bool)
    | DoEnd
    | DoSocketClose(fd: int)
    | DoForeignClose(fd: int)
    | DoRun(vm: Vm, ex: Exec)

  /** `DoRun` is the VM running PHP code, which moves its own registers freely;
      `DoForeignClose` is a close(2) the extension does not see. */
  function Step(s: State, a: Action): Outcome {
    match a
    case DoCreate(vm, ex, retPtr) => Create(s, vm, ex, retPtr)
    case DoResume(cid) => Resume(s, cid)
    case DoDispatch(fd) => Dispatch(s, fd)
    case DoYield => Yield(s)
    case DoWait(fd, req, added) => Wait(s, fd, req, added)
    case DoEnd => End(s)
    case DoSocketClose(fd) => SocketClose(s, fd)
    case DoForeignClose(fd) => Ok(s.(table := s.table.(epoll := s.table.epoll - {fd})))
    case DoRun(vm, ex) => Ok(s.(regs := s.regs.(vm := vm, ex := ex)))
  }

  /** The discipline of the PHP program and the kernel: yield, wait and return happen
      inside a coroutine, the event loop runs in main, a cid is resumed only after its
      coroutine yielded and before it is resumed again, and the kernel watches no
      descriptor that is closed behind the extension's back. */
  predicate Disciplined(s: State, a: Action) {
    match a
    case DoCreate(_, _, _) => true
    case DoResume(cid) => 0 <= cid <= MAX_CID && (cid in s.cidMap ==> cid in s.resumable)
    case DoDispatch(fd) => s.frames == [] && IsFd(fd)
    case DoYield => s.frames != [] && InCall(s.regs.ex)
    case DoWait(fd, req, added) =>
      && s.frames != [] && InCall(s.regs.ex)
      && IsFd(fd) && ValidRequest(req) && KernelAdd(s.table, fd, added)
    case DoEnd => s.frames != []
    case DoSocketClose(fd) => IsFd(fd)
    case DoForeignClose(fd) => fd !in s.table.epoll
    case DoRun(_, _) => true
  }

  /** The action suspends or ends the running coroutine. */
  predicate Leaves(s: State, a: Action) {
    a.DoYield? || a.DoEnd? || (a.DoWait? && Store(s.table, a.fd, s.next, a.req, a.added).ok)
  }

  /** The entry a dispatch in progress is for has not been freed. */
  predicate EntryThere(s: State) {
    s.frames != [] ==>
      match s.frames[|s.frames| - 1]
      case InvokeFrame(fd, entry, _, _) => IsEntry(s.table, fd, entry)
      case _ => true
  }

  /** A create at the cap while `current_coro` points to a task that has ended. */
  predicate HitsDeadTask(s: State, a: Action) {
    a.DoCreate? && AtCap(s) && s.regs.task.Some? && s.regs.task.value !in s.tasks
  }

  /** The step ends a dispatch whose entry has been freed, and reads it. */
  predicate ReadsFreedEntry(s: State, a: Action) {
    Leaves(s, a) && !EntryThere(s)
  }

  /** The two steps that no discipline of the client keeps safe. */
  predicate GoesWrong(s: State, a: Action) {
    HitsDeadTask(s, a) || ReadsFreedEntry(s, a)
  }

  /** A create finds an id left. */
  predicate IdLeft(s: State, a: Action) {
    a.DoCreate? ==> NrFree(s.cids) > 0
  }
}
