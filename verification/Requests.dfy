/** What a wait method allocates for its request: the copy of its arguments, and the timer
    of a sleep.  Who frees them, and when nobody does. */
module Requests {
  import opened Options
  import opened Registry
  import opened Machine
  import opened Runs
  import opened Effects

  datatype Thing = Arguments(id: nat) | Timer(id: nat)

  predicate Has(e: Event, x: Thing) {
    match x
    case Arguments(i) => e.arguments == Some(i)
    case Timer(i) => e.timer == Some(i)
  }

  predicate Asks(a: Action, x: Thing) {
    a.DoWait? &&
    match x
    case Arguments(i) => a.req.arguments == Some(i)
    case Timer(i) => a.req.timer == Some(i)
  }

  predicate HeldAt(s: State, fd: int, x: Thing) {
    Has(EntryOf(s.table, fd), x)
  }

  ghost predicate Held(s: State, x: Thing) {
    exists fd :: HeldAt(s, fd, x)
  }

  ghost predicate HeldOnce(s: State, x: Thing) {
    forall fd, g | HeldAt(s, fd, x) && HeldAt(s, g, x) :: fd == g
  }

  /** The entry of a descriptor nobody waits on takes the request with `x`. */
  predicate Records(s: State, a: Action, x: Thing) {
    Asks(a, x) && EntryOf(s.table, a.fd).context.None? && a.added
  }

  /** The dispatch or close clears the entry of `fd`. */
  predicate Clears(a: Action, fd: int) {
    (a.DoDispatch? || a.DoSocketClose?) && a.fd == fd
  }

  /** The step frees `x`. */
  predicate Frees(s: State, a: Action, x: Thing) {
    (a.DoDispatch? || a.DoSocketClose?) && HeldAt(s, a.fd, x)
  }

  lemma ClearThings(s: State, r: State, fd: int, g: int, x: Thing)
    requires Agrees(s.table) && r.table == Registry.Free(s.table, fd)
    ensures HeldAt(r, g, x) <==> HeldAt(s, g, x) && g != fd
  {
    assert EntryAgrees(s.table, fd);
  }

  lemma WaitThings(s: State, a: Action, r: State, g: int, x: Thing)
    requires Agrees(s.table) && a.DoWait? && ValidRequest(a.req)
    requires r.table == Store(s.table, a.fd, s.next, a.req, a.added).table
    ensures HeldAt(r, g, x) <==> HeldAt(s, g, x) || (Records(s, a, x) && g == a.fd)
  {
    StoreHarmsNoWaiter(s.table, a.fd, s.next, a.req, a.added);
    assert EntryAgrees(s.table, a.fd);
  }

  lemma StepThings(s: State, a: Action, r: State, g: int, x: Thing)
    requires Effect(s, a, r) && Disciplined(s, a) && Agrees(s.table)
    ensures HeldAt(r, g, x) <==> (HeldAt(s, g, x) && !Clears(a, g)) || (Records(s, a, x) && g == a.fd)
  {
    FreeAgreesWhenIdle(s.table, g);
    match a
    case DoDispatch(fd) =>
      FreeAgreesWhenIdle(s.table, fd);
      ClearThings(s, r, fd, g, x);
    case DoSocketClose(fd) =>
      FreeAgreesWhenIdle(s.table, fd);
      ClearThings(s, r, fd, g, x);
    case DoWait(_, _, _) => WaitThings(s, a, r, g, x);
    case _ =>
  }

  lemma FreeAgreesWhenIdle(r: Table, fd: int)
    requires Agrees(r)
    ensures EntryOf(r, fd).context.None? ==> Registry.Free(r, fd) == r
  {
    FreeAgrees(r, fd);
  }

  /** A step frees what it clears, and records at most one request. */
  lemma StepHolds(s: State, a: Action, r: State, x: Thing)
    requires Effect(s, a, r) && Disciplined(s, a) && Agrees(s.table)
    requires HeldOnce(s, x) && (Asks(a, x) ==> !Held(s, x))
    ensures HeldOnce(r, x)
    ensures Held(r, x) <==> (Held(s, x) && !Frees(s, a, x)) || Records(s, a, x)
  {
    forall g ensures HeldAt(r, g, x) <==> (HeldAt(s, g, x) && !Clears(a, g)) || (Records(s, a, x) && g == a.fd) {
      StepThings(s, a, r, g, x);
    }
    if Held(s, x) && !Frees(s, a, x) {
      var g :| HeldAt(s, g, x);
      assert HeldAt(r, g, x);
    }
    if Records(s, a, x) {
      assert HeldAt(r, a.fd, x);
    }
  }

  lemma RunHolds(ss: seq<State>, acts: seq<Action>, i: nat, x: Thing)
    requires Run(ss, acts) && i < |acts| && IdsLeft(ss, acts, i + 1)
    requires HeldOnce(ss[i], x) && (Asks(acts[i], x) ==> !Held(ss[i], x))
    ensures HeldOnce(ss[i + 1], x)
    ensures Held(ss[i + 1], x) <==> (Held(ss[i], x) && !Frees(ss[i], acts[i], x)) || Records(ss[i], acts[i], x)
  {
    RunStep(ss, acts, i);
    RunEffect(ss, acts, i);
    StepHolds(ss[i], acts[i], ss[i + 1], x);
  }

  // ----- whole runs

  ghost predicate EverFreed(ss: seq<State>, acts: seq<Action>, n: nat, x: Thing)
    requires n <= |acts| < |ss|
  {
    exists j :: 0 <= j < n && Frees(ss[j], acts[j], x)
  }

  /** `x` is allocated for the wait at step `w`, and for no other. */
  ghost predicate OnlyFor(acts: seq<Action>, w: nat, x: Thing) {
    w < |acts| && Asks(acts[w], x) && forall j | 0 <= j < |acts| && j != w :: !Asks(acts[j], x)
  }

  lemma {:induction false} NotYetThere(ss: seq<State>, acts: seq<Action>, w: nat, n: nat, x: Thing)
    requires Run(ss, acts) && n <= w && IdsLeft(ss, acts, n) && OnlyFor(acts, w, x)
    ensures !Held(ss[n], x) && !EverFreed(ss, acts, n, x)
  {
    if n > 0 {
      NotYetThere(ss, acts, w, n - 1, x);
      RunHolds(ss, acts, n - 1, x);
    }
  }

  lemma {:induction false} HeldUntilFreed(ss: seq<State>, acts: seq<Action>, w: nat, n: nat, x: Thing)
    requires Run(ss, acts) && w < n && IdsLeft(ss, acts, n) && OnlyFor(acts, w, x)
    ensures HeldOnce(ss[n], x)
    ensures Held(ss[n], x) <==> Records(ss[w], acts[w], x) && !EverFreed(ss, acts, n, x)
    ensures EverFreed(ss, acts, n, x) ==> Records(ss[w], acts[w], x)
    ensures forall i, j | 0 <= i < n && 0 <= j < n && Frees(ss[i], acts[i], x) && Frees(ss[j], acts[j], x) :: i == j
    decreases n
  {
    if n == w + 1 {
      NotYetThere(ss, acts, w, w, x);
    } else {
      HeldUntilFreed(ss, acts, w, n - 1, x);
    }
    RunHolds(ss, acts, n - 1, x);
    if Frees(ss[n - 1], acts[n - 1], x) {
      assert Held(ss[n - 1], x);
    }
  }

  /** The fate of what a wait allocates: one entry holds it until the dispatch or close that
      frees it, and it is freed at most once.  It is lost, neither held nor ever freed, if and
      only if the kernel refused the wait or the descriptor already had a waiter. */
  lemma RequestFate(ss: seq<State>, acts: seq<Action>, w: nat, n: nat, x: Thing)
    requires Run(ss, acts) && w < n && IdsLeft(ss, acts, n) && OnlyFor(acts, w, x)
    ensures !Held(ss[n], x) && !EverFreed(ss, acts, n, x) <==>
            !acts[w].added || EntryOf(ss[w].table, acts[w].fd).context.Some?
    ensures !(Held(ss[n], x) && EverFreed(ss, acts, n, x)) && HeldOnce(ss[n], x)
    ensures forall i, j | 0 <= i < n && 0 <= j < n && Frees(ss[i], acts[i], x) && Frees(ss[j], acts[j], x) :: i == j
  {
    HeldUntilFreed(ss, acts, w, n, x);
  }
}
