/** What the coroutines allocate comes back. */
module Resources {
  import opened Options
  import opened Machine
  import opened Invariants
  import opened Runs
  import opened Ownership

  /** A resumed context is released, once, or the activation that resumed it is still
      running; never both. */
  lemma ResumedComesBack(ss: seq<State>, acts: seq<Action>, n: nat, c: nat)
    requires Run(ss, acts) && IdsLeft(ss, acts, n) && c in ss[n].resumed
    ensures ss[n].resumed[c] == 1 && ss[n].released[c] <= 1
    ensures ss[n].released[c] == 1 <==> !(exists i :: HoldsContext(ss[n], OnStack(i), c))
    ensures ss[n].released[c] == 1 <==> c !in ss[n].contexts
  {
    RunCapped(ss, acts, n);
    ResumedIsHeld(ss[n], c);
  }

  lemma ResumedIsHeld(s: State, c: nat)
    requires Owned(s, |s.frames|, None) && WokenOnce(s) && c in s.resumed
    ensures s.released[c] == 1 <==> c !in s.contexts
    ensures c in s.contexts <==> exists i :: HoldsContext(s, OnStack(i), c)
  {
    if c in s.contexts {
      assert ContextHeld(s, |s.frames|, c);
      var t := s.contexts[c].task.value;
      if !s.place[t].Active? {
        assert false;
      } else {
        assert HoldsContext(s, OnStack(s.place[t].depth), c);
      }
    }
    forall i | HoldsContext(s, OnStack(i), c) ensures c in s.contexts {
      SingleHolder(s, OnStack(i), OnStack(i), c);
    }
  }

  /** The jmp_buf `b` belongs to the create or resume at position `i` of the activation stack. */
  ghost predicate BufferOf(s: State, i: nat, b: nat) {
    i < |s.frames| && !s.frames[i].InvokeFrame? && BufferAt(s, i + 1) == b
  }

  /** The allocated jmp_bufs are the base one and one for each create or resume in
      progress, each its own. */
  lemma BuffersComeBack(ss: seq<State>, acts: seq<Action>, n: nat)
    requires Run(ss, acts) && IdsLeft(ss, acts, n)
    ensures forall b :: b in ss[n].jmp <==> b == BASE || exists i :: BufferOf(ss[n], i, b)
    ensures forall i, j, b | BufferOf(ss[n], i, b) && BufferOf(ss[n], j, b) :: i == j && b != BASE
  {
    RunCapped(ss, acts, n);
    Buffers(ss[n]);
  }

  lemma Buffers(s: State)
    requires Chain(s)
    ensures forall b :: b in s.jmp <==> b == BASE || exists i :: BufferOf(s, i, b)
    ensures forall i, j, b | BufferOf(s, i, b) && BufferOf(s, j, b) :: i == j && b != BASE
  {
    forall b: nat | b in s.jmp && b != BASE ensures exists i :: BufferOf(s, i, b) {
      var d := s.jmp[b];
      assert BufferAt(s, d) == b;
      assert BufferOf(s, d - 1, b);
    }
    forall b: nat, i: nat | BufferOf(s, i, b) ensures b in s.jmp && s.jmp[b] == i + 1 && b != BASE {
      assert BufferAt(s, i + 1) in s.jmp;
    }
  }

  /** With nothing left running every context and every jmp_buf but the base one is free again. */
  lemma AllComesBack(ss: seq<State>, acts: seq<Action>, n: nat)
    requires Run(ss, acts) && IdsLeft(ss, acts, n) && ss[n].frames == [] && ss[n].tasks == map[]
    ensures ss[n].contexts == map[] && ss[n].jmp.Keys == {BASE}
    ensures ss[n].cids.used == {} <==> ss[n].refused == 0
  {
    RunCapped(ss, acts, n);
    BuffersComeBack(ss, acts, n);
    NoContexts(ss[n]);
  }

  lemma NoContexts(s: State)
    requires FramesOwned(s, |s.frames|) && ContextsOwned(s, |s.frames|, None)
    ensures s.tasks == map[] ==> s.contexts == map[]
  {
    if c :| c in s.contexts {
      assert ContextHeld(s, |s.frames|, c);
      assert s.contexts[c].task.value in s.tasks;
    }
  }
}
