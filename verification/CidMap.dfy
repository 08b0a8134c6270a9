/** The bitmap behind the allocator, in place: 16384 words of 32 bits, a free counter
    and the cursor. */
module CidMaps {
  import opened CidSpec

  /** `page` is 65536 bytes read as 32-bit words; ids use the first 1024 of them. */
  const WORDS: nat := 16384

  /** The word with bit `k` alone. */
  function Mask(k: nat): bv32
    requires k < 32
  {
    1 << k
  }

  predicate Has(word: bv32, m: bv32) {
    word & m != 0
  }

  predicate OneBit(m: bv32) {
    m != 0 && m & (m - 1) == 0
  }

  lemma MaskIsOneBit(k: nat, m: bv32)
    requires k < 32 && m == Mask(k)
    ensures OneBit(m)
  {
  }

  lemma MasksDiffer(k: nat, j: nat, m: bv32, n: bv32)
    requires k < 32 && j < 32 && k != j && m == Mask(k) && n == Mask(j)
    ensures m & n == 0
  {
  }

  lemma Complemented(word: bv32, m: bv32)
    requires OneBit(m)
    ensures !word & m != 0 <==> word & m == 0
  {
  }

  lemma OrSame(word: bv32, m: bv32)
    ensures (word | m) & m == m
  {
  }

  lemma OrOther(word: bv32, m: bv32, n: bv32)
    requires m & n == 0
    ensures (word | m) & n == word & n
  {
  }

  lemma OrMask(word: bv32, m: bv32, n: bv32, same: bool)
    requires if same then m == n && m != 0 else m & n == 0
    ensures Has(word | m, n) <==> same || Has(word, n)
  {
    if same {
      OrSame(word, m);
    } else {
      OrOther(word, m, n);
    }
  }

  lemma AndNotMask(word: bv32, m: bv32, n: bv32, same: bool)
    requires if same then m == n && m != 0 else m & n == 0
    ensures Has(word & !m, n) <==> !same && Has(word, n)
  {
  }

  lemma MasksSameOrApart(k: nat, j: nat, m: bv32, n: bv32)
    requires k < 32 && j < 32 && m == Mask(k) && n == Mask(j)
    ensures if k == j then m == n && m != 0 else m & n == 0
  {
    if k == j {
      MaskIsOneBit(k, m);
    } else {
      MasksDiffer(k, j, m, n);
    }
  }

  /** `|` with a mask sets that bit and no other. */
  lemma StoredBit(word: bv32, k: nat, m: bv32, j: nat, n: bv32)
    requires k < 32 && j < 32 && m == Mask(k) && n == Mask(j)
    ensures Has(word | m, n) <==> k == j || Has(word, n)
  {
    MasksSameOrApart(k, j, m, n);
    OrMask(word, m, n, k == j);
  }

  /** `&` with a complemented mask clears that bit and no other. */
  lemma ClearedBit(word: bv32, k: nat, m: bv32, j: nat, n: bv32)
    requires k < 32 && j < 32 && m == Mask(k) && n == Mask(j)
    ensures Has(word & !m, n) <==> k != j && Has(word, n)
  {
    MasksSameOrApart(k, j, m, n);
    AndNotMask(word, m, n, k == j);
  }

  /** Bit number `c` of the page. */
  predicate IsSet(page: seq<bv32>, c: int)
    requires |page| == WORDS && IsId(c)
  {
    Has(page[c / 32], Mask(c % 32))
  }

  /** The page holds exactly the ids in `used`, and no bit past the ids. */
  ghost predicate Represents(page: seq<bv32>, used: set<int>) {
    && |page| == WORDS
    && used <= AllIds()
    && (forall c {:trigger IsSet(page, c)} | IsId(c) :: c in used <==> IsSet(page, c))
    && (forall w | 1024 <= w < WORDS :: page[w] == 0)
  }

  lemma ZeroPage(page: seq<bv32>)
    requires |page| == WORDS && forall w | 0 <= w < WORDS :: page[w] == 0
    ensures Represents(page, {})
  {
  }

  lemma UsedIsSet(page: seq<bv32>, used: set<int>, cid: int)
    requires Represents(page, used) && IsId(cid)
    ensures cid in used <==> Has(page[cid / 32], Mask(cid % 32))
  {
    assert IsSet(page, cid) <==> cid in used;
  }

  /** How the code tests a bit, one way and the other. */
  lemma TestBit(word: bv32, m: bv32, isUsed: bool)
    requires OneBit(m) && (isUsed <==> Has(word, m))
    ensures word & m == 0 <==> !isUsed
    ensures !word & m != 0 <==> !isUsed
  {
    Complemented(word, m);
  }

  lemma SetRepresents(page: seq<bv32>, used: set<int>, cid: int, word: bv32, m: bv32)
    requires Represents(page, used) && IsId(cid) && m == Mask(cid % 32) && word == page[cid / 32]
    ensures Represents(page[cid / 32 := word | m], used + {cid})
  {
    var after := page[cid / 32 := word | m];
    forall c | IsId(c) ensures c in used + {cid} <==> IsSet(after, c) {
      assert IsSet(page, c) <==> c in used;
      if c / 32 == cid / 32 {
        StoredBit(word, cid % 32, m, c % 32, Mask(c % 32));
      }
    }
  }

  lemma ClearRepresents(page: seq<bv32>, used: set<int>, cid: int, word: bv32, m: bv32)
    requires Represents(page, used) && IsId(cid) && m == Mask(cid % 32) && word == page[cid / 32]
    ensures Represents(page[cid / 32 := word & !m], used - {cid})
  {
    var after := page[cid / 32 := word & !m];
    forall c | IsId(c) ensures c in used - {cid} <==> IsSet(after, c) {
      assert IsSet(page, c) <==> c in used;
      if c / 32 == cid / 32 {
        ClearedBit(word, cid % 32, m, c % 32, Mask(c % 32));
      }
    }
  }

  class CidMap {
    var page: array<bv32>
    var nrFree: int
    var lastCid: int
    ghost var used: set<int>

    ghost predicate ValidPage()
      reads this, page
    {
      Represents(page[..], used) && -1 <= lastCid < IDS
    }

    ghost predicate Valid()
      reads this, page
    {
      ValidPage() && nrFree == NrFree(State())
    }

    /** The abstract allocator this bitmap stands for. */
    ghost function State(): (s: CidState)
      reads this
    {
      CidState(used, lastCid)
    }

    constructor ()
      ensures Valid() && fresh(page) && State() == FRESH
    {
      page := new bv32[WORDS](_ => 0);
      nrFree := 0x8000;
      lastCid := -1;
      used := {};
      new;
      ZeroPage(page[..]);
    }

    /** True when the bit was clear before; the bit is set afterwards either way. */
    method TestAndSetBit(cid: int) returns (wasClear: bool)
      requires ValidPage() && IsId(cid)
      modifies page, this`used
      ensures ValidPage() && wasClear == (cid !in old(used)) && used == old(used) + {cid}
    {
      var mask := Mask(cid % 32);
      var p := cid / 32;
      var word := page[p];
      UsedIsSet(page[..], used, cid);
      MaskIsOneBit(cid % 32, mask);
      TestBit(word, mask, cid in used);
      SetRepresents(page[..], used, cid, word, mask);
      page[p] := word | mask;
      used := used + {cid};
      assert page[..] == old(page[..])[p := word | mask];
      wasClear := word & mask == 0;
    }

    method ClearBit(cid: int)
      requires ValidPage() && IsId(cid)
      modifies page, this`used
      ensures ValidPage() && used == old(used) - {cid}
    {
      var mask := Mask(cid % 32);
      var p := cid / 32;
      var word := page[p];
      ClearRepresents(page[..], used, cid, word, mask);
      page[p] := word & !mask;
      used := used - {cid};
      assert page[..] == old(page[..])[p := word & !mask];
    }

    /** The cyclic scan.  The bit at `mark` is never tested: on a full bitmap the scan
        comes back to `mark`, and from mark -1 it needs a zero bit to stop at all. */
    method FindNextZeroBit(mark: int) returns (cid: int)
      requires ValidPage() && -1 <= mark < IDS
      requires mark == -1 ==> used != AllIds()
      ensures used != AllIds() ==> NearestFree(CidState(used, mark), cid)
      ensures used == AllIds() ==> cid == mark
    {
      cid := (mark + 1) % 0x8000;
      while cid != mark
        invariant IsId(cid)
        invariant forall c | IsId(c) && Distance(mark, c) < Distance(mark, cid) :: c in used
        decreases IDS - Distance(mark, cid)
      {
        var mask := Mask(cid % 32);
        var word := page[cid / 32];
        UsedIsSet(page[..], used, cid);
        MaskIsOneBit(cid % 32, mask);
        TestBit(word, mask, cid in used);
        if !word & mask != 0 {
          break;
        }
        LapNotOver(used, mark, cid);
        cid := (cid + 1) % 0x8000;
      }
      ScanEnd(used, mark, cid);
    }

    /** Next-fit allocation: an id in 1..32768 that was free, at the least cyclic
        distance from the last one issued; -1 exactly when none is free. */
    method Alloc() returns (cid: int)
      requires Valid()
      modifies this`nrFree, this`lastCid, this`used, page
      ensures Valid() && page == old(page)
      ensures cid == -1 <==> old(nrFree) == 0
      ensures cid == -1 ==> CidStep(old(State()), Exhausted, State())
      ensures cid != -1 ==> 1 <= cid <= 32768 && CidStep(old(State()), Issue(cid - 1), State())
      ensures cid != -1 ==> cid - 1 == NextFree(old(State()))
      ensures cid != -1 ==> nrFree == old(nrFree) - 1
    {
      CounterAgrees(State());
      if nrFree == 0 {
        return -1;
      }
      NextFreeIsNearest(State());
      cid := FindNextZeroBit(lastCid);
      NearestIsUnique(State(), cid, NextFree(State()));
      var wasClear := TestAndSetBit(cid);
      if wasClear {
        nrFree := nrFree - 1;
        lastCid := cid;
        return cid + 1;
      }
      assert false;
      return -1;
    }

    /** Give back an id that is in use. */
    method Free(cid: int)
      requires Valid()
      requires 1 <= cid <= 32768 && cid - 1 in used
      modifies this`nrFree, this`used, page
      ensures Valid() && page == old(page)
      ensures CidStep(old(State()), Release(cid - 1), State())
      ensures nrFree == old(nrFree) + 1
    {
      nrFree := nrFree + 1;
      ClearBit(cid - 1);
    }
  }

  /** A scan that has found only set bits and may go on has not finished its lap. */
  lemma LapNotOver(used: set<int>, mark: int, cid: int)
    requires -1 <= mark < IDS && IsId(cid) && cid != mark && cid in used
    requires mark == -1 ==> used != AllIds()
    requires used <= AllIds()
    requires forall c | IsId(c) && Distance(mark, c) < Distance(mark, cid) :: c in used
    ensures Distance(mark, (cid + 1) % IDS) == Distance(mark, cid) + 1
  {
  }

  lemma ScanEnd(used: set<int>, mark: int, cid: int)
    requires -1 <= mark < IDS && IsId(cid) && (cid == mark || cid !in used)
    requires used <= AllIds()
    requires forall c | IsId(c) && Distance(mark, c) < Distance(mark, cid) :: c in used
    ensures used != AllIds() ==> NearestFree(CidState(used, mark), cid)
    ensures used == AllIds() ==> cid == mark
  {
  }
}
