/** The per-fd event table and the kernel's epoll interest set. */
module Registry {
  import opened Options

  const MAX_FDS: int := 102400

  // fd_type of an entry; 0 is an idle entry
  const FD_ACCEPT: nat := 1
  const FD_TIMER: nat := 2
  const FD_NORMAL: nat := 3

  /** One `aio_event`: the waiting context, the recorded epoll mask, the kind of
      descriptor and the call to make when it becomes ready. */
  datatype Event = Event(
    context: Option<nat>,
    mask: nat,
    fdType: nat,
    functionName: Option<string>,
    arguments: Option<nat>,
    argsCount: nat,
    timer: Option<nat>)

  const ZERO_EVENT: Event := Event(None, 0, 0, None, None, 0, None)

  /** A call of a PHP function. */
  datatype Call = Call(functionName: string, arguments: Option<nat>, argsCount: nat)

  /** What a wait method asks for. */
  datatype Request = Request(
    fdType: nat,
    mask: nat,
    functionName: Option<string>,
    arguments: Option<nat>,
    argsCount: nat,
    timer: Option<nat>)

  /** `address` is the table (an absent fd is a null pointer), `events` what its pointers
      point to, `epoll` the fds the kernel watches.  The entry allocated next gets the
      address `nextAddress`; addresses do not come back. */
  datatype Table = Table(events: map<int, Event>, address: map<int, nat>, nextAddress: nat, epoll: set<int>)

  const EMPTY_TABLE: Table := Table(map[], map[], 0, {})

  predicate IsFd(fd: int) {
    0 <= fd < MAX_FDS
  }

  /** The requests the wait methods make: a real descriptor kind, a non-empty mask,
      and a timer only with a timer descriptor. */
  predicate ValidRequest(req: Request) {
    && 1 <= req.fdType <= 3
    && req.mask != 0
    && (req.timer.Some? ==> req.fdType == FD_TIMER)
  }

  /** Result of a store: the table afterwards and whether C_OK was returned. */
  datatype Stored = Stored(table: Table, ok: bool)

  function EntryOf(r: Table, fd: int): Event {
    if fd in r.events then r.events[fd] else ZERO_EVENT
  }

  function Filled(e: Event, context: nat, req: Request): Event {
    if e.context.None? then
      Event(Some(context), e.mask, req.fdType, req.functionName, req.arguments, req.argsCount, req.timer)
    else e
  }

  /** The table in which `fd` has an entry. */
  function Located(r: Table, fd: int): Table {
    if fd in r.events then r
    else r.(events := r.events[fd := ZERO_EVENT],
            address := r.address[fd := r.nextAddress],
            nextAddress := r.nextAddress + 1)
  }

  /** The pointer of `fd`, or null, modelled as 0, if it has no entry. */
  function AddressOf(r: Table, fd: int): nat {
    if fd in r.address then r.address[fd] else 0
  }

  /** The entry at address `entry` is allocated, and is the one of `fd`. */
  predicate IsEntry(r: Table, fd: int, entry: nat) {
    fd in r.events && fd in r.address && r.address[fd] == entry
  }

  /** `_aio_event_store`; `added` is what the kernel answers if EPOLL_CTL_ADD is called.
      If it refuses, the entry is freed and its pointer becomes null. */
  function Store(r: Table, fd: int, context: nat, req: Request, added: bool): (out: Stored) {
    var located, e := Located(r, fd), EntryOf(r, fd);
    if e.mask == 0 && !added then
      Stored(located.(events := r.events - {fd}, address := r.address - {fd}), false)
    else if e.mask == 0 then
      Stored(located.(events := r.events[fd := Filled(e.(mask := req.mask), context, req)],
                      epoll := r.epoll + {fd}), true)
    else
      Stored(located.(events := r.events[fd := Filled(e, context, req)]), true)
  }

  /** The call `aio_invoke` makes before it clears the entry of `fd`.  The function name
      outlives the waiter it was stored for. */
  function CallMade(r: Table, fd: int): Option<Call> {
    var e := EntryOf(r, fd);
    match e.functionName
    case Some(name) => Some(Call(name, e.arguments, e.argsCount))
    case None => None
  }

  function Cleared(e: Event): Event {
    e.(context := None,
       arguments := None,
       argsCount := 0,
       mask := if 1 <= e.fdType <= 3 then 0 else e.mask,
       timer := if e.fdType == FD_TIMER then None else e.timer,
       fdType := 0)
  }

  /** `aio_event_free` on the entry of `fd`: also leaves the epoll set, and closes a timer. */
  function Free(r: Table, fd: int): Table {
    if fd !in r.events then r
    else r.(events := r.events[fd := Cleared(r.events[fd])],
            epoll := if 1 <= r.events[fd].fdType <= 3 then r.epoll - {fd} else r.epoll)
  }

  /** `socket_close`: the descriptor is closed first, which takes it out of the epoll set. */
  function Close(r: Table, fd: int): Table {
    Free(r.(epoll := r.epoll - {fd}), fd)
  }

  // ----- agreement with the kernel

  /** An entry is either completely idle or completely registered. */
  ghost predicate EntryAgrees(r: Table, fd: int) {
    var e := EntryOf(r, fd);
    && e.fdType <= 3
    && (e.context.Some? <==> e.fdType != 0)
    && (e.context.Some? <==> e.mask != 0)
    && (e.context.Some? <==> fd in r.epoll)
    && (e.timer.Some? ==> e.fdType == FD_TIMER)
    && (e.context.None? ==> e.arguments.None? && e.argsCount == 0)
  }

  ghost predicate Agrees(r: Table) {
    forall fd :: EntryAgrees(r, fd)
  }

  /** Every pointer of the table leads to an entry of its own. */
  ghost predicate Addressed(r: Table) {
    && r.address.Keys == r.events.Keys
    && (forall fd | fd in r.address :: r.address[fd] < r.nextAddress)
    && (forall fd, x | fd in r.address && x in r.address && fd != x :: r.address[fd] != r.address[x])
  }

  /** The store was refused by the kernel, and its entry is freed. */
  predicate Discards(r: Table, fd: int, added: bool) {
    EntryOf(r, fd).mask == 0 && !added
  }

  lemma StoreAddressed(r: Table, fd: int, context: nat, req: Request, added: bool)
    requires Addressed(r)
    ensures var t := Store(r, fd, context, req, added).table; Addressed(t) && t.nextAddress >= r.nextAddress
  {
  }

  /** A store frees the entry of its own descriptor if the kernel refuses it, and no entry
      otherwise; a free entry does not come back at its old address. */
  lemma StoreAddresses(r: Table, fd: int, context: nat, req: Request, added: bool, x: int, entry: nat)
    requires Addressed(r) && entry < r.nextAddress
    ensures var t := Store(r, fd, context, req, added).table;
      (IsEntry(t, x, entry) <==> IsEntry(r, x, entry) && !(x == fd && Discards(r, fd, added)))
  {
  }

  lemma FreeAddresses(r: Table, fd: int)
    requires Addressed(r)
    ensures Addressed(Free(r, fd)) && Free(r, fd).address == r.address && Free(r, fd).nextAddress == r.nextAddress
    ensures Free(r, fd).events.Keys == r.events.Keys
    ensures Close(r, fd).address == r.address && Close(r, fd).nextAddress == r.nextAddress
    ensures Close(r, fd).events.Keys == r.events.Keys
  {
  }

  /** The kernel refuses to add a descriptor it already watches. */
  predicate KernelAdd(r: Table, fd: int, added: bool) {
    added ==> fd !in r.epoll
  }

  lemma StoreAgrees(r: Table, fd: int, context: nat, req: Request, added: bool)
    requires Agrees(r) && ValidRequest(req) && KernelAdd(r, fd, added)
    ensures Agrees(Store(r, fd, context, req, added).table)
  {
    var out := Store(r, fd, context, req, added);
    forall x ensures EntryAgrees(out.table, x) {
      assert EntryAgrees(r, x) && EntryAgrees(r, fd);
    }
  }

  lemma FreeAgrees(r: Table, fd: int)
    requires Agrees(r)
    ensures Agrees(Free(r, fd)) && Agrees(Close(r, fd))
    ensures EntryOf(Free(r, fd), fd).context.None? && fd !in Free(r, fd).epoll
    ensures Free(Free(r, fd), fd) == Free(r, fd)
    ensures EntryOf(r, fd).context.None? ==> Free(r, fd) == r
    ensures Close(r, fd) == Free(r, fd)
  {
    assert EntryAgrees(r, fd);
    forall x ensures EntryAgrees(Free(r, fd), x) && EntryAgrees(Close(r, fd), x) {
      assert EntryAgrees(r, x);
    }
    if fd in r.events {
      assert Cleared(Cleared(r.events[fd])) == Cleared(r.events[fd]);
      assert Free(Free(r, fd), fd).events == Free(r, fd).events;
      if r.events[fd].context.None? {
        assert Free(r, fd).events == r.events;
      }
    }
  }

  /** A store never harms an existing waiter.  A store that fails in epoll discards an
      entry nobody waits on; a store on a busy descriptor reports success and changes
      nothing at all; a store on an idle one records exactly the request. */
  lemma StoreHarmsNoWaiter(r: Table, fd: int, context: nat, req: Request, added: bool)
    requires Agrees(r) && ValidRequest(req)
    ensures var out := Store(r, fd, context, req, added);
      && (!out.ok <==> EntryOf(r, fd).context.None? && !added)
      && (!out.ok ==> out.table.epoll == r.epoll && EntryOf(out.table, fd) == ZERO_EVENT)
      && (EntryOf(r, fd).context.Some? ==> out == Stored(r, true))
      && (out.ok && EntryOf(r, fd).context.None? ==>
            && EntryOf(out.table, fd) ==
               Event(Some(context), req.mask, req.fdType, req.functionName, req.arguments, req.argsCount, req.timer)
            && out.table.epoll == r.epoll + {fd})
      && forall x | x != fd :: EntryOf(out.table, x) == EntryOf(r, x)
  {
    assert EntryAgrees(r, fd);
    if EntryOf(r, fd).context.Some? {
      assert Store(r, fd, context, req, added).table.events == r.events;
    }
  }

  /** The function name outlives the waiter: an entry that is dispatched again makes the
      same call, without arguments. */
  lemma CallOutlivesWaiter(r: Table, fd: int)
    ensures match CallMade(r, fd)
            case None => CallMade(Free(r, fd), fd) == None
            case Some(call) => CallMade(Free(r, fd), fd) == Some(Call(call.functionName, None, 0))
  {
  }

  /** Closing a descriptor behind the table's back keeps the agreement exactly when the
      kernel was not watching it. */
  lemma ForeignCloseAgreesIff(r: Table, fd: int)
    requires Agrees(r)
    ensures Agrees(r.(epoll := r.epoll - {fd})) <==> fd !in r.epoll
  {
    var after := r.(epoll := r.epoll - {fd});
    assert EntryAgrees(r, fd);
    if fd in r.epoll {
      assert !EntryAgrees(after, fd);
    } else {
      assert after == r;
    }
  }

  /** What the agreement protects: after such a close, the next descriptor that gets the
      same number is stored without an epoll registration and without its context, so
      nothing will ever wake its waiter. */
  lemma ForeignCloseLosesNextWaiter(r: Table, fd: int, context: nat, req: Request, added: bool)
    requires Agrees(r) && fd in r.epoll
    ensures var after := r.(epoll := r.epoll - {fd});
      var out := Store(after, fd, context, req, added);
      out.ok && out.table == after && fd !in out.table.epoll
      && (EntryOf(out.table, fd).context == Some(context) ==> EntryOf(r, fd).context == Some(context))
  {
    var after := r.(epoll := r.epoll - {fd});
    assert EntryAgrees(r, fd);
    assert Store(after, fd, context, req, added).table.events == after.events;
  }
}
