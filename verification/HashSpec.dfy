/** The chained hash table as a value: a sequence of buckets, each a sequence of items. */
module HashSpec {
  import opened Options

  /** The characters of a C string: signed, and not the terminator. */
  type SChar = c: int | -128 <= c <= 127 && c != 0 witness 1

  type Key = seq<SChar>

  /** A stored value and the function that frees it, if any. */
  datatype Stored = Stored(value: nat, freeValue: Option<nat>)

  datatype Item = Item(key: Key, stored: Stored)

  const TABLE_SIZE: nat := 1024
  const NULL: nat := 0
  const WORD: int := 0x1_0000_0000

  // ----- hash_33

  function Pow33(n: nat): nat {
    if n == 0 then 1 else 33 * Pow33(n - 1)
  }

  /** The polynomial the hash stands for, over the integers: the sum of key[i] * 33^(n-1-i). */
  function Poly(key: Key): int {
    if key == [] then 0 else key[0] * Pow33(|key| - 1) + Poly(key[1..])
  }

  /** The same polynomial, one character at a time. */
  function Horner(key: Key): int {
    if key == [] then 0 else 33 * Horner(key[..|key| - 1]) + key[|key| - 1]
  }

  function Bucket(key: Key): nat {
    Horner(key) % TABLE_SIZE
  }

  lemma {:induction false} HornerIsPoly(key: Key)
    ensures Horner(key) == Poly(key)
  {
    if key != [] {
      var front, c := key[..|key| - 1], key[|key| - 1];
      HornerIsPoly(front);
      PolySnoc(front, c);
      assert front + [c] == key;
    }
  }

  /** One more character: the polynomial is shifted by 33. */
  lemma {:induction false} PolySnoc(key: Key, c: SChar)
    ensures Poly(key + [c]) == 33 * Poly(key) + c
  {
    if key == [] {
      assert Pow33(0) == 1;
    } else {
      assert (key + [c])[1..] == key[1..] + [c];
      PolySnoc(key[1..], c);
      PolyStep(key[0], Pow33(|key| - 1));
    }
  }

  lemma PolyStep(a: int, p: int)
    ensures a * (33 * p) == 33 * (a * p)
  {
  }

  lemma WrapStep(p: int, c: int)
    ensures (((p % WORD) * 32) % WORD + p % WORD + c) % WORD == (33 * p + c) % WORD
  {
  }

  /** Wrap-around at 32 bits never changes a bucket. */
  lemma BucketOfWrapped(p: int)
    ensures (p % WORD) % TABLE_SIZE == p % TABLE_SIZE
  {
  }

  lemma BucketIsPoly(key: Key)
    ensures Bucket(key) == Poly(key) % 1024
  {
    HornerIsPoly(key);
  }

  /** `hash_33`: shift, add, next character, all modulo 2^32. */
  method Hash33(key: Key) returns (hash: nat)
    ensures hash == Poly(key) % WORD
    ensures hash % TABLE_SIZE == Poly(key) % TABLE_SIZE == Bucket(key)
  {
    hash := 0;
    var i := 0;
    while i < |key|
      invariant 0 <= i <= |key|
      invariant hash == Horner(key[..i]) % WORD
    {
      assert key[..i + 1][..i] == key[..i];
      WrapStep(Horner(key[..i]), key[i]);
      hash := ((hash * 32) % WORD + hash + key[i]) % WORD;
      i := i + 1;
    }
    assert key[..|key|] == key;
    HornerIsPoly(key);
    BucketIsPoly(key);
    BucketOfWrapped(Horner(key));
  }

  // ----- one chain

  /** Position of `key` in a chain, or its length. */
  function IndexOf(items: seq<Item>, key: Key): (i: nat)
    ensures i <= |items|
    ensures i < |items| ==> items[i].key == key
    ensures forall j | 0 <= j < i :: items[j].key != key
  {
    if items == [] || items[0].key == key then 0 else 1 + IndexOf(items[1..], key)
  }

  predicate Distinct(items: seq<Item>) {
    forall i, j | 0 <= i < j < |items| :: items[i].key != items[j].key
  }

  function PutIn(items: seq<Item>, item: Item): seq<Item> {
    var i := IndexOf(items, item.key);
    if i < |items| then items[i := item] else items + [item]
  }

  /** Removing the head of a chain drops the whole chain. */
  function RmIn(items: seq<Item>, key: Key): seq<Item> {
    var i := IndexOf(items, key);
    if i == |items| then items
    else if i == 0 then []
    else items[..i] + items[i + 1..]
  }

  // ----- the table

  type Buckets = b: seq<seq<Item>> | |b| == TABLE_SIZE witness Empty()

  function Empty(): seq<seq<Item>> {
    seq(TABLE_SIZE, _ => [])
  }

  /** Keys are unique and sit in their own bucket. */
  ghost predicate ChainWellFormed(items: seq<Item>, i: nat) {
    Distinct(items) && forall j | 0 <= j < |items| :: Bucket(items[j].key) == i
  }

  ghost predicate WellFormed(b: Buckets) {
    forall i | 0 <= i < TABLE_SIZE :: ChainWellFormed(b[i], i)
  }

  function Chain(b: Buckets, key: Key): seq<Item> {
    b[Bucket(key)]
  }

  /** The finite map the table stands for. */
  function Lookup(b: Buckets, key: Key): Option<Stored> {
    var i := IndexOf(Chain(b, key), key);
    if i < |Chain(b, key)| then Some(Chain(b, key)[i].stored) else None
  }

  datatype Op = Put(item: Item, memory: bool) | Rm(key: Key)

  /** A put of a new key needs memory; without it nothing changes. */
  predicate Succeeds(b: Buckets, op: Op) {
    op.Put? ==> op.memory || Lookup(b, op.item.key).Some?
  }

  function Apply(b: Buckets, op: Op): Buckets {
    match op
    case Put(item, memory) =>
      if Succeeds(b, op) then b[Bucket(item.key) := PutIn(Chain(b, item.key), item)] else b
    case Rm(key) => b[Bucket(key) := RmIn(Chain(b, key), key)]
  }

  /** The removal hits the head of a chain that goes on. */
  predicate DropsChain(b: Buckets, op: Op) {
    op.Rm? && |Chain(b, op.key)| >= 2 && Chain(b, op.key)[0].key == op.key
  }

  lemma IndexUnique(items: seq<Item>, key: Key, i: nat)
    requires Distinct(items) && i < |items| && items[i].key == key
    ensures IndexOf(items, key) == i
  {
  }

  lemma PutInKeeps(items: seq<Item>, item: Item)
    requires ChainWellFormed(items, Bucket(item.key))
    ensures ChainWellFormed(PutIn(items, item), Bucket(item.key))
  {
  }

  lemma RmInKeeps(items: seq<Item>, key: Key, i: nat)
    requires ChainWellFormed(items, i)
    ensures ChainWellFormed(RmIn(items, key), i)
  {
  }

  lemma ApplyWellFormed(b: Buckets, op: Op)
    requires WellFormed(b)
    ensures WellFormed(Apply(b, op))
  {
    match op
    case Put(item, _) => PutInKeeps(Chain(b, item.key), item);
    case Rm(key) => RmInKeeps(Chain(b, key), key, Bucket(key));
  }

  lemma PutLookup(b: Buckets, op: Op, key: Key)
    requires WellFormed(b) && op.Put?
    ensures Lookup(Apply(b, op), key) ==
            if Succeeds(b, op) && key == op.item.key then Some(op.item.stored) else Lookup(b, key)
  {
    var items, after := Chain(b, key), Chain(Apply(b, op), key);
    ApplyWellFormed(b, op);
    if Succeeds(b, op) && Bucket(key) == Bucket(op.item.key) {
      var i := IndexOf(items, op.item.key);
      if key == op.item.key {
        IndexUnique(after, key, i);
      } else if IndexOf(items, key) < |items| {
        IndexUnique(after, key, IndexOf(items, key));
      }
    }
  }

  lemma RmLookup(b: Buckets, op: Op, key: Key)
    requires WellFormed(b) && op.Rm?
    ensures Lookup(Apply(b, op), key) ==
            if key == op.key || (DropsChain(b, op) && Bucket(key) == Bucket(op.key)) then None
            else Lookup(b, key)
  {
    ApplyWellFormed(b, op);
    var items, after := Chain(b, key), Chain(Apply(b, op), key);
    if Bucket(key) == Bucket(op.key) {
      var i, j := IndexOf(items, op.key), IndexOf(items, key);
      if 0 < i < |items| && j < |items| && j != i {
        IndexUnique(after, key, if j < i then j else j - 1);
      }
    }
  }

  /** A removal takes away its own key and nothing else if and only if the key does not
      head a chain of two or more. */
  lemma RmIsExactIff(b: Buckets, op: Op)
    requires WellFormed(b) && op.Rm?
    ensures (forall key :: Lookup(Apply(b, op), key) == if key == op.key then None else Lookup(b, key))
            <==> !DropsChain(b, op)
  {
    forall key ensures Lookup(Apply(b, op), key) ==
                       if key == op.key || (DropsChain(b, op) && Bucket(key) == Bucket(op.key)) then None
                       else Lookup(b, key)
    {
      RmLookup(b, op, key);
    }
    if DropsChain(b, op) {
      var second := Chain(b, op.key)[1].key;
      IndexUnique(Chain(b, second), second, 1);
      assert Lookup(b, second).Some? && second != op.key;
    }
  }

  // ----- sequences of operations

  function Exec(ops: seq<Op>): Buckets {
    if ops == [] then Empty() else Apply(Exec(ops[..|ops| - 1]), ops[|ops| - 1])
  }

  /** What the history of operations says about a key: the latest put that went through,
      unless a removal came later. */
  function Latest(ops: seq<Op>, key: Key): Option<Stored> {
    if ops == [] then None
    else
      var before := Latest(ops[..|ops| - 1], key);
      match ops[|ops| - 1]
      case Put(item, memory) => if item.key == key && (memory || before.Some?) then Some(item.stored) else before
      case Rm(k) => if k == key then None else before
  }

  predicate NeverDropsChain(ops: seq<Op>) {
    ops == [] || (NeverDropsChain(ops[..|ops| - 1]) && !DropsChain(Exec(ops[..|ops| - 1]), ops[|ops| - 1]))
  }

  lemma {:induction false} ExecWellFormed(ops: seq<Op>)
    ensures WellFormed(Exec(ops))
  {
    if ops != [] {
      ExecWellFormed(ops[..|ops| - 1]);
      ApplyWellFormed(Exec(ops[..|ops| - 1]), ops[|ops| - 1]);
    }
  }

  /** The table has lost the key: it was there when a removal of another key dropped its
      chain, and since then no put of it found memory and nothing removed it. */
  predicate Forgotten(ops: seq<Op>, key: Key) {
    ops != [] &&
    var front := ops[..|ops| - 1];
    match ops[|ops| - 1]
    case Put(item, memory) => Forgotten(front, key) && !(item.key == key && memory)
    case Rm(k) => k != key && (Forgotten(front, key) || Drops(front, k, key))
  }

  /** After the operations `ops`, a removal of `k` would take `key` with it. */
  predicate Drops(ops: seq<Op>, k: Key, key: Key) {
    DropsChain(Exec(ops), Rm(k)) && Bucket(k) == Bucket(key) && Latest(ops, key).Some?
  }

  lemma {:induction false} ForgottenWasPut(ops: seq<Op>, key: Key)
    requires Forgotten(ops, key)
    ensures Latest(ops, key).Some?
  {
    if Forgotten(ops[..|ops| - 1], key) {
      ForgottenWasPut(ops[..|ops| - 1], key);
    }
  }

  lemma {:induction false} LookupUnlessForgotten(ops: seq<Op>, key: Key)
    ensures Lookup(Exec(ops), key) == if Forgotten(ops, key) then None else Latest(ops, key)
  {
    if ops != [] {
      var front, op := ops[..|ops| - 1], ops[|ops| - 1];
      LookupUnlessForgotten(front, key);
      ExecWellFormed(front);
      if op.Put? {
        PutLookup(Exec(front), op, key);
      } else {
        RmLookup(Exec(front), op, key);
      }
    }
  }

  lemma {:induction false} NothingForgotten(ops: seq<Op>, key: Key)
    requires NeverDropsChain(ops)
    ensures !Forgotten(ops, key)
  {
    if ops != [] {
      NothingForgotten(ops[..|ops| - 1], key);
    }
  }

  /** The table refines a finite map, key by key and for every sequence of puts and
      removals: a lookup gives the latest value put if and only if the key's chain was not
      dropped from under it since. */
  lemma LookupIsLatest(ops: seq<Op>, key: Key)
    ensures Lookup(Exec(ops), key) == Latest(ops, key) <==> !Forgotten(ops, key)
    ensures Forgotten(ops, key) ==> Lookup(Exec(ops), key) == None && Latest(ops, key).Some?
    ensures NeverDropsChain(ops) ==> !Forgotten(ops, key)
  {
    LookupUnlessForgotten(ops, key);
    if NeverDropsChain(ops) {
      NothingForgotten(ops, key);
    }
    if Forgotten(ops, key) {
      ForgottenWasPut(ops, key);
    }
  }

  // ----- destructors

  function Owned(st: Stored): multiset<Stored> {
    if st.freeValue.Some? then multiset{st} else multiset{}
  }

  /** The values of a chain that have a destructor. */
  function ChainHolds(items: seq<Item>): multiset<Stored> {
    if items == [] then multiset{} else Owned(items[0].stored) + ChainHolds(items[1..])
  }

  function HoldsFrom(b: Buckets, i: nat): multiset<Stored>
    requires i <= TABLE_SIZE
    decreases TABLE_SIZE - i
  {
    if i == TABLE_SIZE then multiset{} else ChainHolds(b[i]) + HoldsFrom(b, i + 1)
  }

  /** The values in the table that have a destructor. */
  function Holds(b: Buckets): multiset<Stored> {
    HoldsFrom(b, 0)
  }

  /** The values the operation passes to their destructors. */
  function Destroys(b: Buckets, op: Op): multiset<Stored> {
    var key := if op.Put? then op.item.key else op.key;
    match Lookup(b, key)
    case Some(st) => Owned(st)
    case None => multiset{}
  }

  function Stores(b: Buckets, op: Op): multiset<Stored> {
    if op.Put? && Succeeds(b, op) then Owned(op.item.stored) else multiset{}
  }

  /** The values that vanish without their destructors being called. */
  function Leaks(b: Buckets, op: Op): multiset<Stored> {
    if DropsChain(b, op) then ChainHolds(Chain(b, op.key)[1..]) else multiset{}
  }

  lemma {:induction false} ChainHoldsSplit(a: seq<Item>, c: seq<Item>)
    ensures ChainHolds(a + c) == ChainHolds(a) + ChainHolds(c)
  {
    if a == [] {
      assert a + c == c;
    } else {
      assert (a + c)[1..] == a[1..] + c;
      ChainHoldsSplit(a[1..], c);
    }
  }

  lemma ChainHoldsAt(items: seq<Item>, i: nat)
    requires i < |items|
    ensures ChainHolds(items) == ChainHolds(items[..i]) + Owned(items[i].stored) + ChainHolds(items[i + 1..])
  {
    assert items == items[..i] + items[i..];
    ChainHoldsSplit(items[..i], items[i..]);
    assert items[i..][1..] == items[i + 1..];
  }

  lemma SwapChains(a: multiset<Stored>, rest: multiset<Stored>, c: multiset<Stored>)
    ensures (a + rest) + c == (c + rest) + a
  {
  }

  lemma AddFront(x: multiset<Stored>, r: multiset<Stored>, c: multiset<Stored>,
                 r': multiset<Stored>, c': multiset<Stored>)
    requires r' + c == r + c'
    ensures (x + r') + c == (x + r) + c'
  {
    assert (x + r') + c == x + (r' + c);
    assert (x + r) + c' == x + (r + c');
  }

  /** What happens to a chain happens to the table. */
  lemma Balance(h: multiset<Stored>, h': multiset<Stored>, c: multiset<Stored>, c': multiset<Stored>,
                stored: multiset<Stored>, gone: multiset<Stored>)
    requires h' + c == h + c' && c' + gone == c + stored
    ensures h + stored == h' + gone
  {
    forall x ensures (h + stored)[x] == (h' + gone)[x] {
      assert (h' + c)[x] == (h + c')[x] && (c' + gone)[x] == (c + stored)[x];
    }
  }

  lemma Accumulate(a: multiset<Stored>, d: multiset<Stored>, h: multiset<Stored>, l: multiset<Stored>,
                   h': multiset<Stored>, stored: multiset<Stored>, destroyed: multiset<Stored>,
                   leaked: multiset<Stored>)
    requires a == d + h + l && h + stored == h' + (destroyed + leaked)
    ensures a + stored == (d + destroyed) + h' + (l + leaked)
  {
    forall x ensures (a + stored)[x] == ((d + destroyed) + h' + (l + leaked))[x] {
      assert (h + stored)[x] == (h' + (destroyed + leaked))[x];
    }
  }

  lemma {:induction false} HoldsAbove(b: Buckets, b': Buckets, i: nat)
    requires i <= TABLE_SIZE && forall j | i <= j < TABLE_SIZE :: b'[j] == b[j]
    ensures HoldsFrom(b', i) == HoldsFrom(b, i)
    decreases TABLE_SIZE - i
  {
    if i < TABLE_SIZE {
      HoldsAbove(b, b', i + 1);
    }
  }

  lemma {:induction false} HoldsUpdate(b: Buckets, b': Buckets, k: nat, i: nat)
    requires i <= k < TABLE_SIZE && forall j | 0 <= j < TABLE_SIZE && j != k :: b'[j] == b[j]
    ensures HoldsFrom(b', i) + ChainHolds(b[k]) == HoldsFrom(b, i) + ChainHolds(b'[k])
    decreases k - i
  {
    if i == k {
      HoldsAbove(b, b', i + 1);
      SwapChains(ChainHolds(b'[k]), HoldsFrom(b, i + 1), ChainHolds(b[k]));
    } else {
      HoldsUpdate(b, b', k, i + 1);
      AddFront(ChainHolds(b[i]), HoldsFrom(b, i + 1), ChainHolds(b[k]), HoldsFrom(b', i + 1), ChainHolds(b'[k]));
    }
  }

  lemma PutHolds(b: Buckets, op: Op)
    requires op.Put? && Succeeds(b, op)
    ensures ChainHolds(PutIn(Chain(b, op.item.key), op.item)) + Destroys(b, op)
            == ChainHolds(Chain(b, op.item.key)) + Owned(op.item.stored)
  {
    var items, item := Chain(b, op.item.key), op.item;
    var i := IndexOf(items, item.key);
    if i < |items| {
      ChainHoldsAt(items, i);
      var after := items[i := item];
      ChainHoldsAt(after, i);
      assert after[..i] == items[..i] && after[i + 1..] == items[i + 1..];
    } else {
      ChainHoldsSplit(items, [item]);
    }
  }

  /** What a removal that finds the key does: its value is destroyed, and the rest of the
      chain leaks if the key headed it. */
  lemma RmFinds(b: Buckets, op: Op, i: nat)
    requires op.Rm? && i == IndexOf(Chain(b, op.key), op.key) < |Chain(b, op.key)|
    ensures Destroys(b, op) == Owned(Chain(b, op.key)[i].stored)
    ensures Leaks(b, op) == if i == 0 then ChainHolds(Chain(b, op.key)[1..]) else multiset{}
  {
  }

  lemma RmHolds(b: Buckets, op: Op)
    requires op.Rm?
    ensures ChainHolds(RmIn(Chain(b, op.key), op.key)) + Destroys(b, op) + Leaks(b, op)
            == ChainHolds(Chain(b, op.key))
  {
    var items := Chain(b, op.key);
    var i := IndexOf(items, op.key);
    if i < |items| {
      RmFinds(b, op, i);
      RmHoldsAt(items, i);
    }
  }

  lemma RmHoldsAt(items: seq<Item>, i: nat)
    requires i < |items|
    ensures ChainHolds(if i == 0 then [] else items[..i] + items[i + 1..]) + Owned(items[i].stored)
            + (if i == 0 then ChainHolds(items[1..]) else multiset{})
            == ChainHolds(items)
  {
    if i > 0 {
      ChainHoldsAt(items, i);
      ChainHoldsSplit(items[..i], items[i + 1..]);
    }
  }

  /** A put that fails destroys nothing. */
  function DestroysIn(b: Buckets, op: Op): multiset<Stored> {
    if Succeeds(b, op) then Destroys(b, op) else multiset{}
  }

  /** Conservation at one operation: what is stored and what was held is held afterwards,
      destroyed, or leaked. */
  lemma ApplyConserves(b: Buckets, op: Op)
    ensures Holds(b) + Stores(b, op) == Holds(Apply(b, op)) + (DestroysIn(b, op) + Leaks(b, op))
  {
    var key := if op.Put? then op.item.key else op.key;
    if Succeeds(b, op) {
      var after := if op.Put? then PutIn(Chain(b, key), op.item) else RmIn(Chain(b, key), key);
      HoldsUpdate(b, Apply(b, op), Bucket(key), 0);
      var gone := DestroysIn(b, op) + Leaks(b, op);
      assert ChainHolds(after) + gone == ChainHolds(Chain(b, key)) + Stores(b, op) by {
        if op.Put? {
          PutHolds(b, op);
        } else {
          RmHolds(b, op);
        }
      }
      Balance(Holds(b), Holds(Apply(b, op)), ChainHolds(Chain(b, key)), ChainHolds(after), Stores(b, op), gone);
    }
  }

  function AllStored(ops: seq<Op>): multiset<Stored> {
    if ops == [] then multiset{}
    else AllStored(ops[..|ops| - 1]) + Stores(Exec(ops[..|ops| - 1]), ops[|ops| - 1])
  }

  function AllDestroyed(ops: seq<Op>): multiset<Stored> {
    if ops == [] then multiset{}
    else AllDestroyed(ops[..|ops| - 1]) + DestroysIn(Exec(ops[..|ops| - 1]), ops[|ops| - 1])
  }

  function AllLeaked(ops: seq<Op>): multiset<Stored> {
    if ops == [] then multiset{}
    else AllLeaked(ops[..|ops| - 1]) + Leaks(Exec(ops[..|ops| - 1]), ops[|ops| - 1])
  }

  lemma {:induction false} EmptyHolds(i: nat)
    requires i <= TABLE_SIZE
    ensures HoldsFrom(Empty(), i) == multiset{}
    decreases TABLE_SIZE - i
  {
    if i < TABLE_SIZE {
      EmptyHolds(i + 1);
    }
  }

  /** Destructors run exactly once: over any sequence of operations, the values stored with
      a destructor are those destroyed so far, those the table holds -- which deleting the
      table destroys -- and those that a dropped chain leaked; without such a removal
      nothing leaks. */
  lemma {:induction false} DestructorsRunOnce(ops: seq<Op>)
    ensures AllStored(ops) == AllDestroyed(ops) + Holds(Exec(ops)) + AllLeaked(ops)
    ensures NeverDropsChain(ops) ==> AllLeaked(ops) == multiset{}
  {
    if ops == [] {
      EmptyHolds(0);
    } else {
      var front, op := ops[..|ops| - 1], ops[|ops| - 1];
      DestructorsRunOnce(front);
      ApplyConserves(Exec(front), op);
      Accumulate(AllStored(front), AllDestroyed(front), Holds(Exec(front)), AllLeaked(front),
                 Holds(Exec(ops)), Stores(Exec(front), op), DestroysIn(Exec(front), op), Leaks(Exec(front), op));
    }
  }

  /** One more operation. */
  lemma OneMoreOp(ops: seq<Op>, op: Op)
    ensures Exec(ops + [op]) == Apply(Exec(ops), op)
    ensures AllDestroyed(ops + [op]) == AllDestroyed(ops) + DestroysIn(Exec(ops), op)
  {
    assert (ops + [op])[..|ops|] == ops;
  }

  // ----- destructors, counted

  /** What the history of operations leaves stored under a key. */
  function Current(ops: seq<Op>, key: Key): Option<Stored> {
    if Forgotten(ops, key) then None else Latest(ops, key)
  }

  /** How often `st` was put: by a put that had memory, or that found its key. */
  function TimesPut(ops: seq<Op>, st: Stored): nat {
    if ops == [] then 0
    else
      var front := ops[..|ops| - 1];
      TimesPut(front, st) +
      match ops[|ops| - 1]
      case Put(item, memory) => if item.stored == st && (memory || Current(front, item.key).Some?) then 1 else 0
      case Rm(_) => 0
  }

  /** How often `st` was stored under the key of an overwrite or a removal. */
  function TimesReplaced(ops: seq<Op>, st: Stored): nat {
    if ops == [] then 0
    else
      var front := ops[..|ops| - 1];
      TimesReplaced(front, st) +
      match ops[|ops| - 1]
      case Put(item, _) => if Current(front, item.key) == Some(st) then 1 else 0
      case Rm(key) => if Current(front, key) == Some(st) then 1 else 0
  }

  /** Only values with a destructor are accounted for, and each of them as often as it was put. */
  lemma {:induction false} StoredCount(ops: seq<Op>, st: Stored)
    ensures AllStored(ops)[st] == if st.freeValue.None? then 0 else TimesPut(ops, st)
  {
    if ops != [] {
      var front, op := ops[..|ops| - 1], ops[|ops| - 1];
      StoredCount(front, st);
      if op.Put? {
        LookupUnlessForgotten(front, op.item.key);
      }
    }
  }

  /** The destructor is called for a value that has one, and for no other, exactly as often
      as an overwrite or a removal met that value under its key. */
  lemma {:induction false} DestroyedCount(ops: seq<Op>, st: Stored)
    ensures AllDestroyed(ops)[st] == if st.freeValue.None? then 0 else TimesReplaced(ops, st)
  {
    if ops != [] {
      var front, op := ops[..|ops| - 1], ops[|ops| - 1];
      DestroyedCount(front, st);
      LookupUnlessForgotten(front, if op.Put? then op.item.key else op.key);
    }
  }

  // ----- a chain that is dropped

  const FIRST: Key := [1, 34]
  const SECOND: Key := [2, 1]

  lemma SameBucket()
    ensures Bucket(FIRST) == Bucket(SECOND) && FIRST != SECOND
  {
    HornerOfTwo(FIRST);
    HornerOfTwo(SECOND);
    assert FIRST[0] != SECOND[0];
  }

  lemma HornerOfTwo(key: Key)
    requires |key| == 2
    ensures Horner(key) == 33 * (key[0] as int) + key[1] as int
  {
    assert key[..1][..0] == [];
    assert Horner(key[..1]) == key[0] as int;
  }

  /** Two keys of one bucket, put one after the other. */
  function TwoPuts(st: Stored): seq<Op> {
    [Op.Put(Item(FIRST, st), true), Op.Put(Item(SECOND, st), true)]
  }

  lemma TwoPutsChain(st: Stored)
    ensures Chain(Exec(TwoPuts(st)), FIRST) == [Item(FIRST, st), Item(SECOND, st)]
    ensures Latest(TwoPuts(st), SECOND) == Some(st)
  {
    SameBucket();
    var first, second := Op.Put(Item(FIRST, st), true), Op.Put(Item(SECOND, st), true);
    OneMoreOp([], first);
    OneMoreOp([first], second);
    assert [] + [first] == [first] && [first] + [second] == TwoPuts(st);
    assert Chain(Exec([first]), FIRST) == [Item(FIRST, st)];
    assert TwoPuts(st)[..1] == [first] && TwoPuts(st)[1] == second;
  }

  /** The failing case is reached: two keys of one bucket are put and the first is removed.
      The second was not removed, and is gone. */
  lemma ForgetsKey(st: Stored) returns (ops: seq<Op>)
    ensures ops == TwoPuts(st) + [Rm(FIRST)] && DropsChain(Exec(TwoPuts(st)), Rm(FIRST))
    ensures Forgotten(ops, SECOND) && Lookup(Exec(ops), SECOND) == None && Latest(ops, SECOND) == Some(st)
  {
    TwoPutsChain(st);
    SameBucket();
    ops := TwoPuts(st) + [Rm(FIRST)];
    assert ops[..2] == TwoPuts(st) && ops[2] == Rm(FIRST);
    LookupUnlessForgotten(ops, SECOND);
  }
}
