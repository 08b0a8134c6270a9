/** The coroutine-id allocator as a value: the set of ids in use and the rotating
    cursor.  Ids here are bit numbers 0..32767; the program hands out bit number + 1. */
module CidSpec {

  const IDS: int := 0x8000

  datatype CidState = CidState(used: set<int>, last: int)

  const FRESH: CidState := CidState({}, -1)

  predicate Under(c: int, n: int) {
    0 <= c < n
  }

  function Range(n: int): set<int> {
    set c | 0 <= c < n && Under(c, n)
  }

  predicate IsId(c: int) {
    Under(c, IDS)
  }

  function AllIds(): set<int> {
    Range(IDS)
  }

  ghost predicate WellFormed(s: CidState) {
    s.used <= AllIds() && -1 <= s.last < IDS
  }

  function Free(s: CidState): set<int> {
    AllIds() - s.used
  }

  /** The value of the counter `nr_free` in a state. */
  function NrFree(s: CidState): int {
    IDS - |s.used|
  }

  /** How many steps the cyclic scan needs from `mark` to `c`; a full lap for `mark` itself. */
  function Distance(mark: int, c: int): int {
    if c > mark then c - mark else c - mark + IDS
  }

  /** `c` is the free id at the least cyclic distance from the cursor. */
  ghost predicate NearestFree(s: CidState, c: int) {
    && IsId(c)
    && c !in s.used
    && forall d | IsId(d) && d !in s.used :: Distance(s.last, c) <= Distance(s.last, d)
  }

  // ----- the scan as a function

  function Probe(mark: int, k: nat): int {
    (mark + k) % IDS
  }

  function ScanFrom(s: CidState, k: nat): (c: int)
    requires 1 <= k <= IDS
    ensures IsId(c)
    decreases IDS - k
  {
    if k == IDS || Probe(s.last, k) !in s.used then Probe(s.last, k) else ScanFrom(s, k + 1)
  }

  /** The id the next allocation picks. */
  function NextFree(s: CidState): (c: int)
    ensures IsId(c)
  {
    ScanFrom(s, 1)
  }

  lemma ProbeDistance(mark: int, c: int)
    requires -1 <= mark < IDS && IsId(c)
    ensures 1 <= Distance(mark, c) <= IDS
    ensures Probe(mark, Distance(mark, c)) == c
  {
  }

  lemma DistanceProbe(mark: int, k: nat)
    requires -1 <= mark < IDS && 1 <= k <= IDS
    ensures IsId(Probe(mark, k)) && Distance(mark, Probe(mark, k)) == k
  {
  }

  lemma {:induction false} ScanFromIsNearest(s: CidState, k: nat)
    requires WellFormed(s) && 1 <= k <= IDS && s.used != AllIds()
    requires forall d | IsId(d) && d !in s.used :: k <= Distance(s.last, d)
    ensures NearestFree(s, ScanFrom(s, k))
    decreases IDS - k
  {
    DistanceProbe(s.last, k);
    var p := Probe(s.last, k);
    if p in s.used {
      forall d | IsId(d) && d !in s.used ensures k < Distance(s.last, d) {
        ProbeDistance(s.last, d);
      }
      var free :| free in AllIds() && free !in s.used;
      ProbeDistance(s.last, free);
      ScanFromIsNearest(s, k + 1);
    }
  }

  lemma NextFreeIsNearest(s: CidState)
    requires WellFormed(s) && s.used != AllIds()
    ensures NearestFree(s, NextFree(s))
  {
    forall d | IsId(d) ensures 1 <= Distance(s.last, d) { ProbeDistance(s.last, d); }
    ScanFromIsNearest(s, 1);
  }

  /** Next-fit leaves no choice: two ids that are both nearest are the same id. */
  lemma NearestIsUnique(s: CidState, c: int, d: int)
    requires WellFormed(s) && NearestFree(s, c) && NearestFree(s, d)
    ensures c == d
  {
  }

  /** The scan loop leaves at some iteration exactly when its mark lies inside the
      range or some bit is zero: from the initial mark -1 only the `nr_free` guard
      of the caller makes it terminate. */
  lemma ScanTerminatesIff(s: CidState)
    requires WellFormed(s)
    ensures (exists k: nat :: k >= 1 && ScanLeavesAt(s, k)) <==> s.last >= 0 || s.used != AllIds()
  {
    if s.last >= 0 {
      assert ScanLeavesAt(s, IDS);
    } else if s.used != AllIds() {
      var free :| free in AllIds() && free !in s.used;
      ProbeDistance(s.last, free);
      assert ScanLeavesAt(s, Distance(s.last, free));
    }
  }

  /** The k-th position the loop looks at is the mark, or has a zero bit. */
  ghost predicate ScanLeavesAt(s: CidState, k: nat) {
    Probe(s.last, k) == s.last || Probe(s.last, k) !in s.used
  }

  // ----- counting

  lemma {:induction false} RangeSize(n: nat)
    ensures |Range(n)| == n
  {
    if n > 0 {
      RangeSize(n - 1);
      assert Range(n) == Range(n - 1) + {n - 1};
    }
  }

  lemma {:induction false} SubsetSize<T>(a: set<T>, b: set<T>)
    requires a <= b
    ensures |a| <= |b|
    ensures |a| == |b| ==> a == b
  {
    if a != {} {
      var x :| x in a;
      SubsetSize(a - {x}, b - {x});
    }
  }

  /** The counter and the bitmap say the same: `nr_free` counts the zero bits,
      stays in 0..32768, and is zero exactly when every bit is set. */
  lemma CounterAgrees(s: CidState)
    requires WellFormed(s)
    ensures NrFree(s) == |Free(s)| && 0 <= NrFree(s) <= IDS
    ensures NrFree(s) == 0 <==> s.used == AllIds()
  {
    RangeSize(IDS);
    SubsetSize(s.used, AllIds());
    assert AllIds() == Free(s) + s.used;
  }

  // ----- runs

  /** What an allocator call does: hand out an id, take one back, or find none free.
      `Other` is a step of the program that does not call the allocator. */
  datatype CidOp = Issue(c: int) | Release(c: int) | Exhausted | Other

  ghost predicate CidStep(s: CidState, op: CidOp, t: CidState) {
    match op
    case Issue(c) => NearestFree(s, c) && t == CidState(s.used + {c}, c)
    case Release(c) => c in s.used && t == CidState(s.used - {c}, s.last)
    case Exhausted => s.used == AllIds() && t == s
    case Other => t == s
  }

  ghost predicate CidRun(ss: seq<CidState>, ops: seq<CidOp>) {
    && |ss| == |ops| + 1
    && WellFormed(ss[0])
    && forall i | 0 <= i < |ops| :: CidStep(ss[i], ops[i], ss[i + 1])
  }

  ghost function Issued(ops: seq<CidOp>): set<int> {
    set op | op in ops && op.Issue? :: op.c
  }

  lemma {:induction false} RunWellFormed(ss: seq<CidState>, ops: seq<CidOp>, n: nat)
    requires CidRun(ss, ops) && n <= |ops|
    ensures WellFormed(ss[n])
  {
    if n > 0 {
      RunWellFormed(ss, ops, n - 1);
      assert CidStep(ss[n - 1], ops[n - 1], ss[n]);
    }
  }

  /** Forward distance from `c`, zero for `c` itself. */
  function Lap(c: int, p: int): int {
    if p >= c then p - c else p - c + IDS
  }

  /** Until an id that was free just after `c` was issued is issued itself, it stays
      free and the cursor has not reached it. */
  ghost predicate StillAhead(c: int, s: CidState, f: int) {
    f !in s.used && s.last >= 0 && Lap(c, s.last) < Lap(c, f)
  }

  lemma {:induction false} AheadUntilIssued(ss: seq<CidState>, ops: seq<CidOp>, i: nat, n: nat, c: int, f: int)
    requires CidRun(ss, ops) && i < n <= |ops|
    requires ops[i] == Issue(c) && f in Free(ss[i + 1])
    ensures f in Issued(ops[i + 1..n]) || StillAhead(c, ss[n], f)
    decreases n
  {
    RunWellFormed(ss, ops, i);
    assert CidStep(ss[i], ops[i], ss[i + 1]);
    if n > i + 1 {
      AheadUntilIssued(ss, ops, i, n - 1, c, f);
      assert CidStep(ss[n - 1], ops[n - 1], ss[n]);
      assert ops[i + 1..n] == ops[i + 1..n - 1] + [ops[n - 1]];
      if f in Issued(ops[i + 1..n - 1]) {
        var op :| op in ops[i + 1..n - 1] && op.Issue? && op.c == f;
        assert op in ops[i + 1..n];
      } else if ops[n - 1] == Issue(f) {
        assert ops[n - 1] in ops[i + 1..n];
      }
    }
  }

  /** Reuse distance: between two issues of the same id, every id that was free just
      after the first one is issued, so at least `nr_free` other ids are. */
  lemma ReuseDistance(ss: seq<CidState>, ops: seq<CidOp>, i: nat, j: nat, c: int)
    requires CidRun(ss, ops) && i < j < |ops|
    requires ops[i] == Issue(c) && ops[j] == Issue(c)
    ensures Free(ss[i + 1]) <= Issued(ops[i + 1..j]) - {c}
    ensures |Issued(ops[i + 1..j]) - {c}| >= NrFree(ss[i + 1])
  {
    assert CidStep(ss[i], ops[i], ss[i + 1]);
    assert CidStep(ss[j], ops[j], ss[j + 1]);
    RunWellFormed(ss, ops, i + 1);
    RunWellFormed(ss, ops, j);
    var free, between := Free(ss[i + 1]), Issued(ops[i + 1..j]);
    forall f | f in free ensures f in between && f != c {
      AheadUntilIssued(ss, ops, i, j, c, f);
    }
    CounterAgrees(ss[i + 1]);
    SubsetSize(free, between - {c});
  }

  lemma NextInOrder(s: CidState, i: nat, c: int)
    requires s == CidState(Range(i), i - 1) && i < IDS && NearestFree(s, c)
    ensures c == i
  {
    assert i !in s.used && Distance(s.last, i) == 1;
    assert Under(c, i) ==> c in s.used;
  }

  /** As long as nothing is given back, ids are handed out in order: 1, 2, 3 and so on. */
  lemma {:induction false} IssuesInOrder(ss: seq<CidState>, ops: seq<CidOp>, n: nat)
    requires CidRun(ss, ops) && ss[0] == FRESH && n <= |ops| && n <= IDS
    requires forall i | 0 <= i < n :: ops[i].Issue?
    ensures ss[n] == CidState(Range(n), n - 1)
    ensures forall i | 0 <= i < n :: ops[i] == Issue(i)
  {
    if n > 0 {
      IssuesInOrder(ss, ops, n - 1);
      assert CidStep(ss[n - 1], ops[n - 1], ss[n - 1 + 1]);
      NextInOrder(ss[n - 1], n - 1, ops[n - 1].c);
      assert Range(n) == Range(n - 1) + {n - 1};
    } else {
      assert Range(0) == {};
    }
  }

  // ----- the distance is attained

  lemma {:induction false} IssuedAtMost(ops: seq<CidOp>)
    ensures |Issued(ops)| <= |ops|
  {
    if ops != [] {
      var front, op := ops[..|ops| - 1], ops[|ops| - 1];
      IssuedAtMost(front);
      var one := if op.Issue? then {op.c} else {};
      assert Issued(ops) <= Issued(front) + one;
      SubsetSize(Issued(ops), Issued(front) + one);
    }
  }

  lemma AppendStep(ss: seq<CidState>, ops: seq<CidOp>, op: CidOp, t: CidState)
    requires CidRun(ss, ops) && CidStep(ss[|ops|], op, t)
    ensures CidRun(ss + [t], ops + [op])
  {
    forall i | 0 <= i < |ops + [op]| ensures CidStep((ss + [t])[i], (ops + [op])[i], (ss + [t])[i + 1]) {
      if i < |ops| {
        assert CidStep(ss[i], ops[i], ss[i + 1]);
      }
    }
  }

  /** From any run on, the free ids can be issued one after the other. */
  lemma {:induction false} IssueAll(ss: seq<CidState>, ops: seq<CidOp>) returns (ss': seq<CidState>, ops': seq<CidOp>)
    requires CidRun(ss, ops)
    ensures CidRun(ss', ops') && ss <= ss' && ops <= ops'
    ensures |ops'| == |ops| + NrFree(ss[|ops|]) && ss'[|ops'|].used == AllIds()
    decreases NrFree(ss[|ops|])
  {
    var s := ss[|ops|];
    RunWellFormed(ss, ops, |ops|);
    CounterAgrees(s);
    if s.used == AllIds() {
      ss', ops' := ss, ops;
    } else {
      NextFreeIsNearest(s);
      var c := NextFree(s);
      var t := CidState(s.used + {c}, c);
      AppendStep(ss, ops, Issue(c), t);
      ss', ops' := IssueAll(ss + [t], ops + [Issue(c)]);
    }
  }

  /** The operations between the two issues of `c` are the issues of `more`, which has `ops`
      in front, and one release. */
  lemma IssuedBetween(ops: seq<CidOp>, more: seq<CidOp>, ops': seq<CidOp>, c: int)
    requires ops <= more && ops' == more + [Release(c)] + [Issue(c)]
    ensures |Issued(ops'[|ops|..|ops'| - 1]) - {c}| <= |more| - |ops|
  {
    var between := ops'[|ops|..|ops'| - 1];
    assert between == more[|ops|..] + [Release(c)];
    assert Issued(between) == Issued(more[|ops|..]);
    IssuedAtMost(more[|ops|..]);
    SubsetSize(Issued(between) - {c}, Issued(between));
  }

  /** The reuse distance is tight: every run that ends with an issue of `c` can be
      continued so that `c` is issued again after exactly as many other ids as were free. */
  lemma ReuseDistanceIsTight(ss: seq<CidState>, ops: seq<CidOp>, c: int) returns (ss': seq<CidState>, ops': seq<CidOp>)
    requires CidRun(ss, ops) && ops != [] && ops[|ops| - 1] == Issue(c)
    ensures CidRun(ss', ops') && ops <= ops' && |ops'| > |ops| && ops'[|ops'| - 1] == Issue(c)
    ensures |Issued(ops'[|ops|..|ops'| - 1]) - {c}| == NrFree(ss[|ops|])
  {
    var i := |ops| - 1;
    RunWellFormed(ss, ops, i);
    assert CidStep(ss[i], ops[i], ss[i + 1]);
    var ss1, ops1 := IssueAll(ss, ops);
    var full := ss1[|ops1|];
    var one := CidState(full.used - {c}, full.last);
    assert c in full.used;
    AppendStep(ss1, ops1, Release(c), one);
    assert NearestFree(one, c);
    AppendStep(ss1 + [one], ops1 + [Release(c)], Issue(c), CidState(one.used + {c}, c));
    ss', ops' := ss1 + [one] + [CidState(one.used + {c}, c)], ops1 + [Release(c)] + [Issue(c)];
    IssuedBetween(ops, ops1, ops', c);
    assert ops'[i] == ops[i] && ss'[i + 1] == ss[|ops|];
    ReuseDistance(ss', ops', i, |ops'| - 1, c);
  }
}
