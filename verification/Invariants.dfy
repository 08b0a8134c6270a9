/** What every disciplined step keeps. */
module Invariants {
  import opened Options
  import opened Registry
  import opened CidSpec
  import opened Machine

  // ----- pointers are fresh

  ghost predicate PointersBelow(s: State) {
    && BASE < s.next
    && (forall c | c in s.contexts :: c < s.next)
    && (forall t | t in s.tasks :: t < s.next)
    && (forall b | b in s.jmp :: b < s.next)
    && (forall cid | cid in s.cidMap :: s.cidMap[cid] < s.next)
    && (forall k | k in s.callbacks :: k < s.next)
    && (forall c | c in s.resumed :: c < s.next)
    && (forall c | c in s.released :: c < s.next)
  }

  // ----- the checkpoint chain

  /** The value `checkPoint` had, and will have again, while the PHP code at depth `d` runs. */
  function BufferAt(s: State, d: nat): nat
    requires d <= |s.frames|
  {
    if d == |s.frames| then s.checkPoint
    else match s.frames[d]
         case CreateFrame(prev, _, _, _, _) => prev
         case ResumeFrame(prev, _, _, _, _) => prev
         case InvokeFrame(_, _, _, _) => BASE
  }

  /** Every frame's own buffer is allocated and was filled by that frame; only a
      dispatch uses the base buffer, and only at the bottom.  No other buffer is allocated. */
  ghost predicate Chain(s: State) {
    && BASE in s.jmp
    && BufferAt(s, 0) == BASE
    && (forall d | 1 <= d <= |s.frames| :: BufferAt(s, d) in s.jmp && s.jmp[BufferAt(s, d)] == d)
    && (forall d | 1 <= d <= |s.frames| :: BufferAt(s, d) == BASE <==> d == 1 && s.frames[0].InvokeFrame?)
    && (forall i | 1 <= i < |s.frames| :: !s.frames[i].InvokeFrame?)
    && (forall b | b in s.jmp && b != BASE :: 1 <= s.jmp[b] <= |s.frames| && BufferAt(s, s.jmp[b]) == b)
  }

  /** What the C frames saved is what their callers need back. */
  ghost predicate Saved(s: State) {
    && (forall i | 0 <= i < |s.frames| && !s.frames[i].InvokeFrame? :: s.frames[i].required == (i > 0))
    && (forall i | 1 <= i < |s.frames| && !s.frames[i].InvokeFrame? ::
          s.frames[i].saved.task == Some(s.frames[i - 1].task))
  }

  /** While PHP code runs: `require` tells whether it is a coroutine, and `current_coro`
      which one. */
  ghost predicate Running(s: State) {
    && s.require == (s.frames != [])
    && (s.frames != [] ==> s.regs.task == Some(s.frames[|s.frames| - 1].task))
  }

  // ----- ownership

  function ContextOf(f: Frame): Option<nat> {
    match f
    case CreateFrame(_, _, _, _, _) => None
    case ResumeFrame(_, _, _, context, _) => Some(context)
    case InvokeFrame(_, _, context, _) => Some(context)
  }

  /** The context through which `t` waits, or from which its active frame resumed it,
      the first `n` frames being active. */
  function ContextAt(s: State, n: nat, t: nat): Option<nat>
    requires t in s.place && n <= |s.frames|
  {
    match s.place[t]
    case Active(i) => if i < n then ContextOf(s.frames[i]) else None
    case OnFd(_, c) => Some(c)
    case OnCid(c) => Some(c)
    case Lost(c) => Some(c)
  }

  ghost predicate Belongs(s: State, c: nat, t: nat) {
    c in s.contexts && s.contexts[c].task == Some(t)
  }

  /** The coroutines on the activation stack are the active ones, once each. */
  ghost predicate FramesOwned(s: State, n: nat)
    requires n <= |s.frames|
  {
    && s.place.Keys == s.tasks.Keys
    && (forall i | 0 <= i < n :: s.frames[i].task in s.place && s.place[s.frames[i].task] == Active(i))
    && (forall t | t in s.place && s.place[t].Active? ::
          s.place[t].depth < n && s.frames[s.place[t].depth].task == t)
  }

  /** Contexts and coroutines correspond: an allocated context belongs to one live
      coroutine and is the only one that coroutine has.  `extra` is a context that a
      frame on its way out still has to release. */
  ghost predicate ContextsOwned(s: State, n: nat, extra: Option<nat>)
    requires n <= |s.frames|
  {
    && (forall t | t in s.place :: OwnsContext(s, n, extra, t))
    && (forall c | c in s.contexts && Some(c) != extra :: ContextHeld(s, n, c))
  }

  ghost predicate OwnsContext(s: State, n: nat, extra: Option<nat>, t: nat)
    requires t in s.place && n <= |s.frames|
  {
    ContextAt(s, n, t).Some? ==>
      ContextAt(s, n, t) != extra && Belongs(s, ContextAt(s, n, t).value, t)
  }

  ghost predicate ContextHeld(s: State, n: nat, c: nat)
    requires c in s.contexts && n <= |s.frames|
  {
    && InCall(s.contexts[c].ex)
    && s.contexts[c].task.Some? && s.contexts[c].task.value in s.place
    && ContextAt(s, n, s.contexts[c].task.value) == Some(c)
  }

  /** The fd entries hold the coroutines that wait on an fd, and no others. */
  ghost predicate FdsOwned(s: State) {
    && (forall t | t in s.place && s.place[t].OnFd? ::
          EntryOf(s.table, s.place[t].fd).context == Some(s.place[t].context))
    && (forall fd | fd in s.table.events && s.table.events[fd].context.Some? ::
          WaiterHolds(s, fd, s.table.events[fd].context.value))
  }

  ghost predicate WaiterHolds(s: State, fd: int, c: nat) {
    && c in s.contexts && s.contexts[c].task.Some?
    && s.contexts[c].task.value in s.place
    && s.place[s.contexts[c].task.value] == OnFd(fd, c)
  }

  /** The fresh entries of the cid map hold the coroutines that yielded, under their own
      cids; a stale entry whose context is still allocated is one being resumed now. */
  ghost predicate CidsOwned(s: State, extra: Option<nat>) {
    && (forall t | t in s.place && s.place[t].OnCid? :: OnCidHolds(s, t, s.place[t].context))
    && (forall cid | cid in s.resumable :: YieldedHolds(s, cid))
    && (forall cid | cid in s.cidMap && cid !in s.resumable :: StaleHolds(s, s.cidMap[cid], extra))
  }

  ghost predicate OnCidHolds(s: State, t: nat, c: nat) {
    && t in s.tasks && s.tasks[t].cid in s.resumable
    && s.tasks[t].cid in s.cidMap && s.cidMap[s.tasks[t].cid] == c
  }

  ghost predicate YieldedHolds(s: State, cid: int) {
    && cid in s.cidMap && s.cidMap[cid] in s.contexts && s.contexts[s.cidMap[cid]].task.Some?
    && var t := s.contexts[s.cidMap[cid]].task.value;
    t in s.place && t in s.tasks && s.tasks[t].cid == cid && s.place[t] == OnCid(s.cidMap[cid])
  }

  ghost predicate StaleHolds(s: State, c: nat, extra: Option<nat>) {
    c in s.contexts && Some(c) != extra ==>
      && s.contexts[c].task.Some? && s.contexts[c].task.value in s.place
      && s.place[s.contexts[c].task.value].Active?
  }

  ghost predicate Owned(s: State, n: nat, extra: Option<nat>)
    requires n <= |s.frames|
  {
    && FramesOwned(s, n)
    && ContextsOwned(s, n, extra)
    && FdsOwned(s)
    && CidsOwned(s, extra)
  }

  // ----- ids and counters

  ghost predicate Counted(s: State) {
    && WellFormed(s.cids)
    && s.coroNum == |s.tasks.Keys|
    && |s.cids.used| == |s.tasks.Keys| + s.refused
  }

  /** Live coroutines hold ids that are in use, each its own. */
  ghost predicate CidsIssued(s: State) {
    && (forall t | t in s.tasks :: 1 <= s.tasks[t].cid <= MAX_CID && s.tasks[t].cid - 1 in s.cids.used)
    && (forall t, u | t in s.tasks && u in s.tasks && t != u :: s.tasks[t].cid != s.tasks[u].cid)
  }

  // ----- entries

  /** The entry a dispatch in progress is for is older than any that is allocated later. */
  ghost predicate EntriesAddressed(s: State) {
    && Addressed(s.table)
    && forall f | f in s.frames && f.InvokeFrame? :: f.entry < s.table.nextAddress
  }

  // ----- histories

  /** No context is resumed or released twice, a live one has not been released, one that
      is still waited on has not been resumed, and one that was resumed is released later. */
  ghost predicate WokenOnce(s: State) {
    && (forall c :: s.resumed[c] <= 1)
    && (forall c :: s.released[c] <= 1)
    && (forall c | c in s.contexts :: s.released[c] == 0)
    && (forall t | t in s.place && !s.place[t].Active? :: s.resumed[s.place[t].context] == 0)
    && (forall c | c in s.resumed :: c in s.contexts || c in s.released)
  }

  ghost predicate HeldByFrame(s: State, k: nat) {
    exists i :: 0 <= i < |s.frames| && s.frames[i].CreateFrame? && s.frames[i].callback == k
  }

  ghost predicate HeldByTask(s: State, k: nat) {
    exists t :: t in s.tasks && s.tasks[t].callback == Some(k)
  }

  /** The callback copy of a create in progress is not freed, and nobody else holds it. */
  ghost predicate FrameCallbacks(s: State) {
    && (forall i | 0 <= i < |s.frames| && s.frames[i].CreateFrame? ::
          s.frames[i].callback in s.callbacks && s.frames[i].callback !in s.freed)
    && (forall i, j | 0 <= i < j < |s.frames| && s.frames[i].CreateFrame? && s.frames[j].CreateFrame? ::
          s.frames[i].callback != s.frames[j].callback)
    && (forall i, t | 0 <= i < |s.frames| && s.frames[i].CreateFrame? && t in s.tasks ::
          s.tasks[t].callback != Some(s.frames[i].callback))
  }

  /** The callback copy a task holds is not freed, and no other task holds it; no copy is
      freed twice. */
  ghost predicate TaskCallbacks(s: State) {
    && (forall t | t in s.tasks && s.tasks[t].callback.Some? ::
          s.tasks[t].callback.value in s.callbacks && s.tasks[t].callback.value !in s.freed)
    && (forall t, u | t in s.tasks && u in s.tasks && t != u && s.tasks[t].callback.Some? ::
          s.tasks[t].callback != s.tasks[u].callback)
    && (forall k :: s.freed[k] <= 1)
    && (forall k | k in s.freed :: k in s.callbacks)
  }

  /** As long as no create was refused, the task of a create in progress holds nothing. */
  ghost predicate Unsettled(s: State) {
    s.refused == 0 ==>
      forall i | 0 <= i < |s.frames| && s.frames[i].CreateFrame? && s.frames[i].task in s.tasks ::
        s.tasks[s.frames[i].task].callback.None?
  }

  ghost predicate CallbacksHeld(s: State) {
    FrameCallbacks(s) && TaskCallbacks(s) && Unsettled(s)
  }

  // ----- the whole invariant

  ghost predicate Core(s: State) {
    && PointersBelow(s)
    && Chain(s)
    && Saved(s)
    && Counted(s)
    && CidsIssued(s)
    && Agrees(s.table)
    && EntriesAddressed(s)
    && WokenOnce(s)
    && CallbacksHeld(s)
  }

  ghost predicate Inv(s: State) {
    && Core(s)
    && Running(s)
    && Owned(s, |s.frames|, None)
  }

  /** The state of a coroutine on its way out: saved or closed, but its C frame still there. */
  ghost predicate Leaving(s: State) {
    && s.frames != []
    && Core(s)
    && var top := s.frames[|s.frames| - 1];
    && Owned(s, |s.frames| - 1, ContextOf(top))
    && (ContextOf(top).Some? ==> ContextOf(top).value in s.contexts)
    && (if top.task in s.tasks then s.regs.task == Some(top.task) && !s.place[top.task].Active?
        else s.regs.task == None)
  }

  /** `coro_init` leaves main running as it was, and takes main's stack for the origin. */
  lemma InitInMain(max: int, vm: Vm, ex: Exec)
    ensures Init(max, vm, ex).regs == Regs(vm, ex, None, 0) && Init(max, vm, ex).origin == vm
    ensures Init(max, vm, ex).maxCoroNum == if max <= 0 then 3000 else max
  {
  }

  lemma InitHolds(max: int, vm: Vm, ex: Exec)
    ensures Inv(Init(max, vm, ex))
  {
    var s := Init(max, vm, ex);
    assert Agrees(s.table) by {
      forall fd ensures EntryAgrees(s.table, fd) { }
    }
  }
}
