/** The chained hash table with its links: nodes live in a memory of addressed records,
    and the operations walk, overwrite and relink them in place. */
module HashTables {
  import opened Options
  import opened HashSpec

  /** A `struct kv`; `next` is an address, or NULL. */
  datatype Kv = Kv(next: nat, key: Key, stored: Stored)

  type Memory = map<nat, Kv>

  function At(chain: seq<nat>, j: nat): nat {
    if j < |chain| then chain[j] else NULL
  }

  /** The nodes linked from `head` on are those at the addresses `chain`, and carry `items`. */
  ghost predicate Represents(m: Memory, chain: seq<nat>, head: nat, items: seq<Item>) {
    && |chain| == |items|
    && head == At(chain, 0)
    && forall j | 0 <= j < |chain| :: NodeIs(m, chain, items, j)
  }

  /** The node at position `j` carries its item and links to the next one. */
  ghost predicate NodeIs(m: Memory, chain: seq<nat>, items: seq<Item>, j: nat)
    requires j < |chain| == |items|
  {
    chain[j] != NULL && chain[j] in m && m[chain[j]] == Kv(At(chain, j + 1), items[j].key, items[j].stored)
  }

  /** Links, chains and buckets agree. */
  ghost predicate Shape(m: Memory, heads: seq<nat>, chains: seq<seq<nat>>, b: Buckets) {
    && |heads| == TABLE_SIZE && |chains| == TABLE_SIZE
    && forall i | 0 <= i < TABLE_SIZE :: Represents(m, chains[i], heads[i], b[i])
  }

  /** The address at position `j` of chain `i` occurs nowhere else. */
  ghost predicate OnlyAt(chains: seq<seq<nat>>, i: nat, j: nat)
    requires i < |chains| && j < |chains[i]|
  {
    forall k, l | 0 <= k < |chains| && 0 <= l < |chains[k]| && chains[k][l] == chains[i][j] :: k == i && l == j
  }

  ghost predicate Apart(chains: seq<seq<nat>>) {
    forall i, j | 0 <= i < |chains| && 0 <= j < |chains[i]| :: OnlyAt(chains, i, j)
  }

  lemma ShapeApart(m: Memory, heads: seq<nat>, chains: seq<seq<nat>>, b: Buckets)
    requires Shape(m, heads, chains, b) && WellFormed(b)
    ensures Apart(chains)
  {
    forall i, j | 0 <= i < |chains| && 0 <= j < |chains[i]| ensures OnlyAt(chains, i, j) {
      forall k, l | 0 <= k < |chains| && 0 <= l < |chains[k]| && chains[k][l] == chains[i][j] ensures k == i && l == j {
        assert Represents(m, chains[i], heads[i], b[i]) && Represents(m, chains[k], heads[k], b[k]);
        assert NodeIs(m, chains[i], b[i], j) && NodeIs(m, chains[k], b[k], l);
        SameKeySamePlace(b, i, j, k, l);
      }
    }
  }

  lemma SameKeySamePlace(b: Buckets, i: nat, j: nat, k: nat, l: nat)
    requires WellFormed(b) && i < TABLE_SIZE && j < |b[i]| && k < TABLE_SIZE && l < |b[k]|
    requires b[i][j].key == b[k][l].key
    ensures i == k && j == l
  {
  }

  // ----- what a write does to a chain

  lemma Untouched(m: Memory, m': Memory, chain: seq<nat>, head: nat, items: seq<Item>)
    requires Represents(m, chain, head, items)
    requires forall j | 0 <= j < |chain| :: chain[j] in m && chain[j] in m' && m'[chain[j]] == m[chain[j]]
    ensures Represents(m', chain, head, items)
  {
    forall j | 0 <= j < |chain| ensures NodeIs(m', chain, items, j) {
      assert NodeIs(m, chain, items, j);
    }
  }

  /** A write to one node leaves the chains it is not in. */
  lemma OthersUntouched(m: Memory, heads: seq<nat>, chains: seq<seq<nat>>, b: Buckets, p: nat, n: Kv, k: nat)
    requires Shape(m, heads, chains, b) && k < TABLE_SIZE && forall l | 0 <= l < |chains[k]| :: chains[k][l] != p
    ensures Represents(m[p := n], chains[k], heads[k], b[k])
  {
    assert Represents(m, chains[k], heads[k], b[k]);
    forall j | 0 <= j < |chains[k]|
      ensures chains[k][j] in m && chains[k][j] in m[p := n] && m[p := n][chains[k][j]] == m[chains[k][j]]
    {
      assert NodeIs(m, chains[k], b[k], j);
    }
    Untouched(m, m[p := n], chains[k], heads[k], b[k]);
  }

  lemma OverwriteChain(m: Memory, chain: seq<nat>, head: nat, items: seq<Item>, j: nat, item: Item)
    requires Represents(m, chain, head, items) && j < |chain| && item.key == items[j].key
    requires forall k | 0 <= k < |chain| && k != j :: chain[k] != chain[j]
    ensures chain[j] in m
    ensures Represents(m[chain[j] := m[chain[j]].(stored := item.stored)], chain, head, items[j := item])
  {
    assert NodeIs(m, chain, items, j);
    var m' := m[chain[j] := m[chain[j]].(stored := item.stored)];
    var items' := items[j := item];
    forall k | 0 <= k < |chain| ensures NodeIs(m', chain, items', k) {
      assert NodeIs(m, chain, items, k);
    }
  }

  lemma OverwriteShape(m: Memory, heads: seq<nat>, chains: seq<seq<nat>>, b: Buckets, i: nat, j: nat, item: Item)
    requires Shape(m, heads, chains, b) && Apart(chains) && i < TABLE_SIZE && j < |chains[i]|
    requires Represents(m, chains[i], heads[i], b[i]) && item.key == b[i][j].key
    ensures chains[i][j] in m
    ensures Shape(m[chains[i][j] := m[chains[i][j]].(stored := item.stored)], heads, chains, b[i := b[i][j := item]])
  {
    var p := chains[i][j];
    assert OnlyAt(chains, i, j);
    OverwriteChain(m, chains[i], heads[i], b[i], j, item);
    var n := m[p].(stored := item.stored);
    forall k | 0 <= k < TABLE_SIZE
      ensures Represents(m[p := n], chains[k], heads[k], b[i := b[i][j := item]][k])
    {
      if k != i {
        OthersUntouched(m, heads, chains, b, p, n, k);
      }
    }
  }

  // ----- linking a new node

  function Linked(m: Memory, chain: seq<nat>, q: nat): Memory {
    if chain == [] || chain[|chain| - 1] !in m then m
    else m[chain[|chain| - 1] := m[chain[|chain| - 1]].(next := q)]
  }

  lemma LinkChain(m: Memory, chain: seq<nat>, head: nat, items: seq<Item>, q: nat, item: Item)
    requires Represents(m, chain, head, items) && q !in m && q != NULL
    requires forall j, k | 0 <= j < k < |chain| :: chain[j] != chain[k]
    ensures Represents(Linked(m, chain, q)[q := Kv(NULL, item.key, item.stored)], chain + [q],
                       if chain == [] then q else head, items + [item])
  {
    var m' := Linked(m, chain, q)[q := Kv(NULL, item.key, item.stored)];
    forall j | 0 <= j < |chain + [q]| ensures NodeIs(m', chain + [q], items + [item], j) {
      if j < |chain| {
        assert NodeIs(m, chain, items, j);
      }
    }
  }

  lemma LinkOthers(m: Memory, heads: seq<nat>, chains: seq<seq<nat>>, b: Buckets, i: nat, q: nat, n: Kv, k: nat)
    requires Shape(m, heads, chains, b) && Apart(chains) && i < TABLE_SIZE && k < TABLE_SIZE && k != i && q !in m
    ensures Represents(Linked(m, chains[i], q)[q := n], chains[k], heads[k], b[k])
  {
    var m' := Linked(m, chains[i], q)[q := n];
    if chains[i] != [] {
      assert OnlyAt(chains, i, |chains[i]| - 1);
    }
    assert Represents(m, chains[k], heads[k], b[k]);
    forall j | 0 <= j < |chains[k]|
      ensures chains[k][j] in m && chains[k][j] in m' && m'[chains[k][j]] == m[chains[k][j]]
    {
      assert NodeIs(m, chains[k], b[k], j);
    }
    Untouched(m, m', chains[k], heads[k], b[k]);
  }

  lemma LinkShape(m: Memory, heads: seq<nat>, chains: seq<seq<nat>>, b: Buckets, i: nat, q: nat, item: Item)
    requires Shape(m, heads, chains, b) && Apart(chains) && i < TABLE_SIZE && q !in m && q != NULL
    ensures Shape(Linked(m, chains[i], q)[q := Kv(NULL, item.key, item.stored)],
                  heads[i := if chains[i] == [] then q else heads[i]],
                  chains[i := chains[i] + [q]], b[i := b[i] + [item]])
  {
    var n := Kv(NULL, item.key, item.stored);
    assert Represents(m, chains[i], heads[i], b[i]);
    forall j, k | 0 <= j < k < |chains[i]| ensures chains[i][j] != chains[i][k] {
      assert OnlyAt(chains, i, j);
    }
    LinkChain(m, chains[i], heads[i], b[i], q, item);
    forall k | 0 <= k < TABLE_SIZE && k != i
      ensures Represents(Linked(m, chains[i], q)[q := n], chains[k], heads[k], b[k])
    {
      LinkOthers(m, heads, chains, b, i, q, n, k);
    }
  }

  // ----- unlinking

  /** `prep->next = p->next` for the node at position `j`. */
  function Unlinked(m: Memory, chain: seq<nat>, j: nat): Memory
    requires 0 < j < |chain|
  {
    if chain[j - 1] in m then m[chain[j - 1] := m[chain[j - 1]].(next := At(chain, j + 1))] else m
  }

  function Drop<T>(s: seq<T>, j: nat): seq<T>
    requires j < |s|
  {
    s[..j] + s[j + 1..]
  }

  lemma UnlinkChain(m: Memory, chain: seq<nat>, head: nat, items: seq<Item>, j: nat)
    requires Represents(m, chain, head, items) && 0 < j < |chain|
    requires forall k, l | 0 <= k < l < |chain| :: chain[k] != chain[l]
    ensures Represents(Unlinked(m, chain, j), Drop(chain, j), head, Drop(items, j))
  {
    var m', c, it := Unlinked(m, chain, j), Drop(chain, j), Drop(items, j);
    assert NodeIs(m, chain, items, j - 1);
    forall k | 0 <= k < |c| ensures NodeIs(m', c, it, k) {
      var o := if k < j then k else k + 1;
      assert c[k] == chain[o] && it[k] == items[o];
      assert NodeIs(m, chain, items, o);
    }
  }

  lemma UnlinkShape(m: Memory, heads: seq<nat>, chains: seq<seq<nat>>, b: Buckets, i: nat, j: nat)
    requires Shape(m, heads, chains, b) && Apart(chains) && i < TABLE_SIZE && 0 < j < |chains[i]|
    requires |b[i]| == |chains[i]|
    ensures Shape(Unlinked(m, chains[i], j), heads, chains[i := Drop(chains[i], j)], b[i := Drop(b[i], j)])
  {
    assert Represents(m, chains[i], heads[i], b[i]);
    forall k, l | 0 <= k < l < |chains[i]| ensures chains[i][k] != chains[i][l] {
      assert OnlyAt(chains, i, k);
    }
    assert OnlyAt(chains, i, j - 1);
    UnlinkChain(m, chains[i], heads[i], b[i], j);
    var p := chains[i][j - 1];
    assert NodeIs(m, chains[i], b[i], j - 1);
    forall k | 0 <= k < TABLE_SIZE && k != i ensures Represents(Unlinked(m, chains[i], j), chains[k], heads[k], b[k]) {
      OthersUntouched(m, heads, chains, b, p, m[p].(next := At(chains[i], j + 1)), k);
    }
  }

  lemma DropShape(m: Memory, heads: seq<nat>, chains: seq<seq<nat>>, b: Buckets, i: nat)
    requires Shape(m, heads, chains, b) && i < TABLE_SIZE
    ensures Shape(m, heads[i := NULL], chains[i := []], b[i := []])
  {
  }

  // ----- what has been freed

  /** No node has been freed twice, and none that is linked has been freed. */
  ghost predicate FreedOnce(nodes: set<nat>, chains: seq<seq<nat>>, freed: multiset<nat>) {
    && (forall p :: freed[p] <= 1)
    && (forall p | p in freed :: p in nodes)
    && (forall i, j | 0 <= i < |chains| && 0 <= j < |chains[i]| :: chains[i][j] !in freed)
  }

  /** The nodes of the chains from `i` on. */
  function NodesFrom(chains: seq<seq<nat>>, i: nat): multiset<nat>
    requires i <= |chains|
    decreases |chains| - i
  {
    if i == |chains| then multiset{} else multiset(chains[i]) + NodesFrom(chains, i + 1)
  }

  /** The node a removal of `key` frees. */
  function RemovedNode(chains: seq<seq<nat>>, b: Buckets, key: Key): multiset<nat> {
    var i, j := Bucket(key), IndexOf(Chain(b, key), key);
    if i < |chains| && j < |chains[i]| then multiset{chains[i][j]} else multiset{}
  }

  lemma {:induction false} DistinctOnce(chain: seq<nat>, p: nat)
    requires forall k, l | 0 <= k < l < |chain| :: chain[k] != chain[l]
    ensures multiset(chain)[p] <= 1
  {
    if chain != [] {
      var front, last := chain[..|chain| - 1], chain[|chain| - 1];
      DistinctOnce(front, p);
      assert chain == front + [last];
      assert multiset(front)[last] == 0;
    }
  }

  lemma {:induction false} NodesOnce(chains: seq<seq<nat>>, i: nat, p: nat)
    requires i <= |chains| && Apart(chains)
    ensures NodesFrom(chains, i)[p] <= 1
    ensures p in NodesFrom(chains, i) <==> exists k, l :: i <= k < |chains| && 0 <= l < |chains[k]| && chains[k][l] == p
    decreases |chains| - i
  {
    if i < |chains| {
      NodesOnce(chains, i + 1, p);
      forall k, l | 0 <= k < l < |chains[i]| ensures chains[i][k] != chains[i][l] {
        assert OnlyAt(chains, i, k);
      }
      DistinctOnce(chains[i], p);
      if p in chains[i] {
        var j :| 0 <= j < |chains[i]| && chains[i][j] == p;
        assert OnlyAt(chains, i, j);
      }
    }
  }

  /** After every node that is still linked has been freed, none was freed twice. */
  lemma AllFreedOnce(nodes: set<nat>, chains: seq<seq<nat>>, freed: multiset<nat>) returns (all: multiset<nat>)
    requires FreedOnce(nodes, chains, freed) && Apart(chains)
    ensures Leaves(freed, NodesFrom(chains, 0), all) && forall p :: all[p] <= 1
    ensures forall p | p in freed :: p in all
    ensures forall i, j | 0 <= i < |chains| && 0 <= j < |chains[i]| :: chains[i][j] in all
  {
    all := freed + NodesFrom(chains, 0);
    forall p: nat ensures all[p] <= 1 {
      NodesOnce(chains, 0, p);
    }
    forall i, j | 0 <= i < |chains| && 0 <= j < |chains[i]| ensures chains[i][j] in NodesFrom(chains, 0) {
      NodesOnce(chains, 0, chains[i][j]);
    }
  }

  /** After every value that is still held has been destroyed, every value stored has been
      destroyed once or leaked. */
  lemma AllDestroyedOnce(ops: seq<Op>, b: Buckets, destroyed: multiset<Stored>) returns (all: multiset<Stored>)
    requires b == Exec(ops) && destroyed == AllDestroyed(ops)
    ensures Leaves(destroyed, Holds(b), all) && AllStored(ops) == all + AllLeaked(ops)
  {
    DestructorsRunOnce(ops);
    all := destroyed + Holds(b);
  }

  lemma AppendFreedOnce(nodes: set<nat>, chains: seq<seq<nat>>, freed: multiset<nat>, i: nat, q: nat)
    requires FreedOnce(nodes, chains, freed) && i < |chains| && q !in nodes
    ensures FreedOnce(nodes + {q}, chains[i := chains[i] + [q]], freed)
  {
  }

  lemma UnlinkFreedOnce(nodes: set<nat>, chains: seq<seq<nat>>, freed: multiset<nat>, i: nat, j: nat)
    requires FreedOnce(nodes, chains, freed) && Apart(chains)
    requires i < |chains| && j < |chains[i]| && chains[i][j] in nodes
    ensures FreedOnce(nodes, chains[i := if j == 0 then [] else Drop(chains[i], j)], freed + multiset{chains[i][j]})
  {
    assert OnlyAt(chains, i, j);
  }

  lemma FoundAt(b: Buckets, key: Key, j: nat)
    requires j < |Chain(b, key)| && Chain(b, key)[j].key == key
    requires forall k | 0 <= k < j :: Chain(b, key)[k].key != key
    ensures IndexOf(Chain(b, key), key) == j && Lookup(b, key) == Some(Chain(b, key)[j].stored)
  {
  }

  lemma NotFound(b: Buckets, key: Key)
    requires forall k | 0 <= k < |Chain(b, key)| :: Chain(b, key)[k].key != key
    ensures IndexOf(Chain(b, key), key) == |Chain(b, key)| && Lookup(b, key) == None
  {
  }

  /** A removal: chains, buckets, destroyed values and freed nodes before and after. */
  datatype Removal = Removal(
    chains: seq<seq<nat>>,
    before: Buckets,
    destroyedBefore: multiset<Stored>,
    freedBefore: multiset<nat>,
    chainsAfter: seq<seq<nat>>,
    after: Buckets,
    destroyedAfter: multiset<Stored>,
    freedAfter: multiset<nat>)

  class HashTable {
    const table: array<nat>
    var memory: Memory
    var next: nat
    ghost var chains: seq<seq<nat>>
    ghost var buckets: Buckets
    ghost var destroyed: multiset<Stored>
    ghost var freed: multiset<nat>
    ghost var ops: seq<Op>

    /** The linked structure stands for the value `buckets`. */
    ghost predicate WellLinked()
      reads this, table
    {
      && table.Length == TABLE_SIZE && next > NULL
      && (forall p | p in memory :: p < next)
      && Shape(memory, table[..], chains, buckets)
      && WellFormed(buckets)
      && FreedOnce(memory.Keys, chains, freed)
    }

    /** And `buckets` is what the operations so far make of an empty table. */
    ghost predicate Valid()
      reads this, table
    {
      WellLinked() && buckets == Exec(ops) && destroyed == AllDestroyed(ops)
    }

    constructor ()
      ensures Valid() && fresh(table) && ops == []
      ensures buckets == Empty() && destroyed == multiset{} && freed == multiset{}
    {
      table := new nat[TABLE_SIZE](_ => NULL);
      memory, next := map[], 1;
      chains, buckets, destroyed, freed := seq(TABLE_SIZE, _ => []), Empty(), multiset{}, multiset{};
      ops := [];
    }

    /** `hash_table_new`: null when either of its allocations finds no memory. */
    static method New(memoryForTable: bool, memoryForHeads: bool) returns (ht: HashTable?)
      ensures ht == null <==> !memoryForTable || !memoryForHeads
      ensures ht != null ==> fresh(ht) && fresh(ht.table) && ht.Valid() && ht.ops == []
      ensures ht != null ==> ht.buckets == Empty() && ht.destroyed == multiset{} && ht.freed == multiset{}
    {
      if !memoryForTable {
        return null;
      }
      if !memoryForHeads {
        return null;
      }
      ht := new HashTable();
    }

    method Get(key: Key) returns (value: nat)
      requires WellLinked()
      ensures value == match Lookup(buckets, key) case Some(st) => st.value case None => NULL
    {
      var hash := Hash33(key);
      var i := hash % TABLE_SIZE;
      ghost var chain, items := chains[i], buckets[i];
      assert Represents(memory, chain, table[..][i], items);
      ghost var j := 0;
      var p := table[i];
      while p != NULL
        invariant j <= |chain| && p == At(chain, j)
        invariant forall k | 0 <= k < j :: items[k].key != key
        decreases |chain| - j
      {
        assert NodeIs(memory, chain, items, j);
        if key == memory[p].key {
          FoundAt(buckets, key, j);
          return memory[p].stored.value;
        }
        p := memory[p].next;
        j := j + 1;
      }
      EndOfChain(memory, chain, table[i], items, j);
      NotFound(buckets, key);
      return NULL;
    }
  
    /** The stored destructor is called on the stored value, if there is one. */
    method DestroyValue(p: nat)
      requires p in memory
      modifies this`destroyed
      ensures destroyed == old(destroyed) + Owned(memory[p].stored)
    {
      if memory[p].stored.freeValue.Some? {
        destroyed := destroyed + multiset{memory[p].stored};
      }
    }

    /** `free_kv`; a node that has been freed stays readable. */
    method FreeKv(p: nat)
      requires p in memory
      modifies this`destroyed, this`freed
      ensures destroyed == old(destroyed) + Owned(memory[p].stored) && freed == old(freed) + multiset{p}
    {
      DestroyValue(p);
      freed := freed + multiset{p};
    }

    /** The key is stored already: its node gets the new value. */
    method Overwrite(i: nat, ghost j: nat, p: nat, value: nat, freeValue: Option<nat>)
      requires table.Length == TABLE_SIZE && Shape(memory, table[..], chains, buckets) && Apart(chains)
      requires i < TABLE_SIZE && j < |chains[i]| && |chains[i]| == |buckets[i]|
      requires p == chains[i][j] && p in memory && memory[p].stored == buckets[i][j].stored
      requires FreedOnce(memory.Keys, chains, freed)
      modifies this`memory, this`buckets, this`destroyed
      ensures memory.Keys == old(memory.Keys) && Shape(memory, table[..], chains, buckets)
      ensures buckets == old(buckets)[i := old(buckets[i])[j := Item(old(buckets[i][j].key), Stored(value, freeValue))]]
      ensures destroyed == old(destroyed) + Owned(old(buckets[i][j].stored))
      ensures FreedOnce(memory.Keys, chains, freed)
    {
      ghost var item := Item(buckets[i][j].key, Stored(value, freeValue));
      assert Represents(memory, chains[i], table[..][i], buckets[i]);
      OverwriteShape(memory, table[..], chains, buckets, i, j, item);
      DestroyValue(p);
      memory := memory[p := memory[p].(stored := Stored(value, freeValue))];
      buckets := buckets[i := buckets[i][j := item]];
    }

    /** The key is new: its node goes to the end of the chain. */
    method Append(i: nat, prep: nat, key: Key, value: nat, freeValue: Option<nat>)
      requires table.Length == TABLE_SIZE && Shape(memory, table[..], chains, buckets) && Apart(chains)
      requires i < TABLE_SIZE && next > NULL && next !in memory
      requires prep == (if chains[i] == [] then NULL else chains[i][|chains[i]| - 1])
      requires FreedOnce(memory.Keys, chains, freed)
      modifies this`memory, this`next, this`chains, this`buckets, table
      ensures next == old(next) + 1 && memory.Keys == old(memory.Keys) + {old(next)}
      ensures Shape(memory, table[..], chains, buckets)
      ensures buckets == old(buckets)[i := old(buckets[i]) + [Item(key, Stored(value, freeValue))]]
      ensures FreedOnce(memory.Keys, chains, freed)
    {
      AppendFreedOnce(memory.Keys, chains, freed, i, next);
      ghost var item, heads := Item(key, Stored(value, freeValue)), table[..];
      assert Represents(memory, chains[i], heads[i], buckets[i]);
      LinkShape(memory, heads, chains, buckets, i, next, item);
      var kv := next;
      next := next + 1;
      if prep == NULL {
        LastNode(memory, chains[i], heads[i], buckets[i]);
        table[i] := kv;
      } else {
        LastNode(memory, chains[i], heads[i], buckets[i]);
        memory := memory[prep := memory[prep].(next := kv)];
      }
      memory := memory[kv := Kv(NULL, key, Stored(value, freeValue))];
      assert table[..] == heads[i := if chains[i] == [] then kv else heads[i]];
      chains := chains[i := chains[i] + [kv]];
      buckets := buckets[i := buckets[i] + [item]];
    }

    /** The walk of `hash_table_put2` along the chain of bucket `i`: the node with the key,
        or NULL and the last node. */
    method Search(i: nat, key: Key) returns (p: nat, prep: nat, ghost j: nat)
      requires WellLinked() && i == Bucket(key)
      ensures |chains[i]| == |buckets[i]| && j == IndexOf(buckets[i], key) && p == At(chains[i], j)
      ensures p == NULL <==> j == |buckets[i]|
      ensures p != NULL ==> p in memory && memory[p].stored == buckets[i][j].stored
      ensures p == NULL ==> prep == (if chains[i] == [] then NULL else chains[i][|chains[i]| - 1])
    {
      ghost var chain, items := chains[i], buckets[i];
      assert Represents(memory, chain, table[..][i], items);
      j := 0;
      p := table[i];
      prep := p;
      while p != NULL
        invariant j <= |chain| && p == At(chain, j) && prep == At(chain, if j == 0 then 0 else j - 1)
        invariant forall k | 0 <= k < j :: items[k].key != key
        decreases |chain| - j
      {
        assert NodeIs(memory, chain, items, j);
        if memory[p].key == key {
          FoundAt(buckets, key, j);
          return;
        }
        prep := p;
        p := memory[p].next;
        j := j + 1;
      }
      EndOfChain(memory, chain, table[i], items, j);
      NotFound(buckets, key);
    }

    method PutNode(key: Key, value: nat, freeValue: Option<nat>, memoryLeft: bool) returns (r: int)
      requires WellLinked()
      modifies this`memory, this`next, this`chains, this`buckets, this`destroyed, table
      ensures WellLinked()
      ensures var op := Op.Put(Item(key, Stored(value, freeValue)), memoryLeft);
        && buckets == Apply(old(buckets), op)
        && r == (if Succeeds(old(buckets), op) then 0 else -1)
        && destroyed == old(destroyed) + DestroysIn(old(buckets), op)
    {
      var hash := Hash33(key);
      var i := hash % TABLE_SIZE;
      ghost var op := Op.Put(Item(key, Stored(value, freeValue)), memoryLeft);
      ApplyWellFormed(buckets, op);
      var p, prep, j := Search(i, key);
      PutCases(buckets, op);
      ShapeApart(memory, table[..], chains, buckets);
      if p != NULL {
        Overwrite(i, j, p, value, freeValue);
        return 0;
      }
      if !memoryLeft {
        return -1;
      }
      Append(i, prep, key, value, freeValue);
      return 0;
    }

    /** Insert or update; -1 when a new key found no memory.  The old value of an updated
        key goes to the destructor stored with it. */
    method Put(key: Key, value: nat, freeValue: Option<nat>, memoryLeft: bool) returns (r: int)
      requires Valid()
      modifies this, table
      ensures Valid()
      ensures var op := Op.Put(Item(key, Stored(value, freeValue)), memoryLeft);
        && ops == old(ops) + [op] && buckets == Apply(old(buckets), op)
        && r == (if Succeeds(old(buckets), op) then 0 else -1)
        && destroyed == old(destroyed) + DestroysIn(old(buckets), op)
        && freed == old(freed)
    {
      ghost var op := Op.Put(Item(key, Stored(value, freeValue)), memoryLeft);
      OneMoreOp(ops, op);
      r := PutNode(key, value, freeValue, memoryLeft);
      ops := ops + [op];
    }

    /** The node at position `j` of chain `i` is taken out; the head takes its whole chain
        with it. */
    method Unlink(i: nat, ghost j: nat, p: nat, prep: nat)
      requires table.Length == TABLE_SIZE && Shape(memory, table[..], chains, buckets) && Apart(chains)
      requires i < TABLE_SIZE && j < |chains[i]| && |chains[i]| == |buckets[i]|
      requires p == chains[i][j] && prep == At(chains[i], if j == 0 then 0 else j - 1)
      modifies this`memory, this`chains, this`buckets, table
      ensures memory.Keys == old(memory.Keys) && Shape(memory, table[..], chains, buckets)
      ensures buckets == old(buckets)[i := if j == 0 then [] else Drop(old(buckets[i]), j)]
      ensures chains == old(chains)[i := if j == 0 then [] else Drop(old(chains[i]), j)]
      ensures Walkable(memory, old(chains[i]), old(buckets[i]), j)
    {
      ghost var chain, heads := chains[i], table[..];
      assert Represents(memory, chain, heads[i], buckets[i]);
      NodeAt(memory, chain, heads[i], buckets[i], j);
      assert OnlyAt(chains, i, j);
      StartWalk(memory, chain, heads[i], buckets[i]);
      if p == prep {
        DropShape(memory, heads, chains, buckets, i);
        table[i] := NULL;
        assert table[..] == heads[i := NULL];
        chains, buckets := chains[i := []], buckets[i := []];
      } else {
        UnlinkShape(memory, heads, chains, buckets, i, j);
        memory := memory[prep := memory[prep].(next := memory[p].next)];
        assert memory == Unlinked(old(memory), chain, j);
        assert OnlyAt(old(chains), i, j - 1);
        forall k | j <= k < |chain| ensures NodeLinks(memory, chain, old(buckets[i]), k) {
          assert NodeLinks(old(memory), chain, old(buckets[i]), k);
        }
        chains, buckets := chains[i := Drop(chain, j)], buckets[i := Drop(buckets[i], j)];
      }
    }

    /** The walk of `hash_table_rm`, which goes on behind the removed node, whose link is
        still read. */
    method Walk(i: nat, key: Key, ghost m: nat, ghost was: Removal)
      requires Walking(was, i, 0, m) && Removing(was, i, key, m) && table[i] == At(was.chains[i], 0)
      modifies this`memory, this`chains, this`buckets, this`destroyed, this`freed, table
      ensures memory.Keys == old(memory.Keys) && Walking(was, i, |was.chains[i]|, m)
    {
      ghost var j := 0;
      var p := table[i];
      var prep := p;
      while p != NULL
        invariant j <= |was.chains[i]| && p == At(was.chains[i], j)
        invariant prep == At(was.chains[i], if j == 0 then 0 else j - 1)
        invariant memory.Keys == old(memory.Keys) && Walking(was, i, j, m)
        decreases |was.chains[i]| - j
      {
        NextNode(memory, was.chains[i], was.before[i], j);
        var q := Visit(i, key, p, prep, j, m, was);
        prep := p;
        p := q;
        j := j + 1;
      }
      NextNode(memory, was.chains[i], was.before[i], j);
    }

    /** The walk has reached position `j`: before `m` nothing has changed, behind it the
        removal is done. */
    ghost predicate Walking(was: Removal, i: nat, j: nat, m: nat)
      reads this, table
    {
      && table.Length == TABLE_SIZE && i < TABLE_SIZE && |was.chains| == TABLE_SIZE
      && Shape(memory, table[..], chains, buckets)
      && Walkable(memory, was.chains[i], was.before[i], j)
      && (if j <= m then
            && buckets == was.before && chains == was.chains
            && destroyed == was.destroyedBefore && freed == was.freedBefore
          else
            && buckets == was.after && chains == was.chainsAfter
            && destroyed == was.destroyedAfter && freed == was.freedAfter)
    }

    /** One round of the walk: remove the node if it has the key, and read its link. */
    method Visit(i: nat, key: Key, p: nat, prep: nat, ghost j: nat, ghost m: nat, ghost was: Removal) returns (q: nat)
      requires Walking(was, i, j, m) && Removing(was, i, key, m) && j < |was.chains[i]|
      requires p == was.chains[i][j] && prep == At(was.chains[i], if j == 0 then 0 else j - 1)
      modifies this`memory, this`chains, this`buckets, this`destroyed, this`freed, table
      ensures memory.Keys == old(memory.Keys) && Walking(was, i, j + 1, m) && q == At(was.chains[i], j + 1)
    {
      RemovingAt(was, i, key, m, j);
      assert NodeLinks(memory, was.chains[i], was.before[i], j);
      if key == memory[p].key {
        RemoveNode(i, j, p, prep);
        assert NodeLinks(memory, was.chains[i], was.before[i], j);
      }
      q := memory[p].next;
    }

    method RemoveNode(i: nat, ghost j: nat, p: nat, prep: nat)
      requires table.Length == TABLE_SIZE && Shape(memory, table[..], chains, buckets) && Apart(chains)
      requires i < TABLE_SIZE && j < |chains[i]| && |chains[i]| == |buckets[i]|
      requires p == chains[i][j] && prep == At(chains[i], if j == 0 then 0 else j - 1)
      modifies this`memory, this`chains, this`buckets, this`destroyed, this`freed, table
      ensures memory.Keys == old(memory.Keys) && Shape(memory, table[..], chains, buckets)
      ensures buckets == old(buckets)[i := if j == 0 then [] else Drop(old(buckets[i]), j)]
      ensures chains == old(chains)[i := if j == 0 then [] else Drop(old(chains[i]), j)]
      ensures destroyed == old(destroyed) + Owned(old(buckets[i][j].stored)) && freed == old(freed) + multiset{p}
      ensures Walkable(memory, old(chains[i]), old(buckets[i]), j)
    {
      assert Represents(memory, chains[i], table[..][i], buckets[i]);
      NodeAt(memory, chains[i], table[i], buckets[i], j);
      FreeKv(p);
      Unlink(i, j, p, prep);
    }

    method RemoveKey(key: Key)
      requires WellLinked()
      modifies this`memory, this`chains, this`buckets, this`destroyed, this`freed, table
      ensures WellLinked()
      ensures buckets == Apply(old(buckets), Rm(key))
      ensures destroyed == old(destroyed) + Destroys(old(buckets), Rm(key))
      ensures freed == old(freed) + RemovedNode(old(chains), old(buckets), key)
    {
      var hash := Hash33(key);
      var i := hash % TABLE_SIZE;
      ghost var was, m := PlanRemoval(memory, table[..], chains, buckets, destroyed, freed, key);
      Walk(i, key, m, was);
    }

    method Remove(key: Key)
      requires Valid()
      modifies this, table
      ensures Valid()
      ensures ops == old(ops) + [Rm(key)] && buckets == Apply(old(buckets), Rm(key))
      ensures destroyed == old(destroyed) + Destroys(old(buckets), Rm(key))
      ensures freed == old(freed) + RemovedNode(old(chains), old(buckets), key)
    {
      OneMoreOp(ops, Rm(key));
      RemoveKey(key);
      ops := ops + [Rm(key)];
    }

    /** `hash_table_delete`: every chain is walked, every value still held goes to its
        destructor, and every linked node is freed, once.  So every value ever stored with
        a destructor has gone to it once, or leaked with a dropped chain. */
    method Delete()
      requires Valid()
      modifies this`destroyed, this`freed
      ensures old(destroyed) + Holds(buckets) == destroyed
      ensures AllStored(ops) == destroyed + AllLeaked(ops)
      ensures forall p :: freed[p] <= 1
      ensures forall p | p in old(freed) :: p in freed
      ensures forall i, j | 0 <= i < |chains| && 0 <= j < |chains[i]| :: chains[i][j] in freed
    {
      ghost var values, nodes := PlanDelete(memory, table[..], chains, buckets, destroyed, freed, ops);
      DeleteChains(values, nodes);
    }

    method DeleteChains(ghost values: multiset<Stored>, ghost nodes: multiset<nat>)
      requires table.Length == TABLE_SIZE && Shape(memory, table[..], chains, buckets)
      requires Leaves(destroyed, Holds(buckets), values) && Leaves(freed, NodesFrom(chains, 0), nodes)
      modifies this`destroyed, this`freed
      ensures destroyed == values && freed == nodes
    {
      for i := 0 to TABLE_SIZE
        invariant Leaves(destroyed, HoldsFrom(buckets, i), values)
        invariant Leaves(freed, NodesFrom(chains, i), nodes)
      {
        DeleteNext(i, values, nodes);
      }
      LastLeaves(buckets, chains, destroyed, values, freed, nodes);
    }

    method DeleteNext(i: nat, ghost values: multiset<Stored>, ghost nodes: multiset<nat>)
      requires i < table.Length == TABLE_SIZE && Shape(memory, table[..], chains, buckets)
      requires Leaves(destroyed, HoldsFrom(buckets, i), values) && Leaves(freed, NodesFrom(chains, i), nodes)
      modifies this`destroyed, this`freed
      ensures Leaves(destroyed, HoldsFrom(buckets, i + 1), values) && Leaves(freed, NodesFrom(chains, i + 1), nodes)
    {
      ghost var laterValues := NextValues(destroyed, buckets, i, values);
      ghost var laterNodes := NextNodes(freed, chains, i, nodes);
      ChainShape(memory, table[..], chains, buckets, i);
      DeleteChain(i, laterValues, values, laterNodes, nodes);
    }

    /** One chain; `values` and `nodes` are what everything comes to in the end, and the
        chains behind this one still hold `laterValues` and `laterNodes`. */
    method DeleteChain(i: nat, ghost laterValues: multiset<Stored>, ghost values: multiset<Stored>,
                       ghost laterNodes: multiset<nat>, ghost nodes: multiset<nat>)
      requires i < table.Length == TABLE_SIZE && |chains| == TABLE_SIZE
      requires Represents(memory, chains[i], table[i], buckets[i])
      requires Leaves(destroyed, ChainHolds(buckets[i]) + laterValues, values)
      requires Leaves(freed, multiset(chains[i]) + laterNodes, nodes)
      modifies this`destroyed, this`freed
      ensures Leaves(destroyed, laterValues, values) && Leaves(freed, laterNodes, nodes)
    {
      ghost var chain, items := chains[i], buckets[i];
      assert items[0..] == items && chain[0..] == chain;
      ghost var j := 0;
      var p := table[i];
      while p != NULL
        invariant j <= |chain| && p == At(chain, j)
        invariant Leaves(destroyed, ChainHolds(items[j..]) + laterValues, values)
        invariant Leaves(freed, multiset(chain[j..]) + laterNodes, nodes)
        decreases |chain| - j
      {
        assert NodeIs(memory, chain, items, j);
        var q := memory[p].next;
        Advance(destroyed, items[j].stored, items, j, laterValues, values);
        AdvanceNodes(freed, chain, j, laterNodes, nodes);
        FreeKv(p);
        p := q;
        j := j + 1;
      }
      EndOfChain(memory, chain, table[i], items, j);
    }
  }

  lemma ChainShape(m: Memory, heads: seq<nat>, chains: seq<seq<nat>>, b: Buckets, i: nat)
    requires Shape(m, heads, chains, b) && i < TABLE_SIZE
    ensures Represents(m, chains[i], heads[i], b[i])
  {
  }

  /** What deleting a table comes to. */
  lemma PlanDelete(m: Memory, heads: seq<nat>, chains: seq<seq<nat>>, b: Buckets,
                   destroyed: multiset<Stored>, freed: multiset<nat>, ops: seq<Op>)
    returns (values: multiset<Stored>, nodes: multiset<nat>)
    requires Shape(m, heads, chains, b) && WellFormed(b) && FreedOnce(m.Keys, chains, freed)
    requires b == Exec(ops) && destroyed == AllDestroyed(ops)
    ensures Leaves(destroyed, Holds(b), values) && AllStored(ops) == values + AllLeaked(ops)
    ensures Leaves(freed, NodesFrom(chains, 0), nodes) && forall p :: nodes[p] <= 1
    ensures forall p | p in freed :: p in nodes
    ensures forall i, j | 0 <= i < |chains| && 0 <= j < |chains[i]| :: chains[i][j] in nodes
  {
    ShapeApart(m, heads, chains, b);
    nodes := AllFreedOnce(m.Keys, chains, freed);
    values := AllDestroyedOnce(ops, b, destroyed);
  }

  lemma NextValues(done: multiset<Stored>, b: Buckets, i: nat, all: multiset<Stored>) returns (later: multiset<Stored>)
    requires i < TABLE_SIZE && Leaves(done, HoldsFrom(b, i), all)
    ensures later == HoldsFrom(b, i + 1) && Leaves(done, ChainHolds(b[i]) + later, all)
  {
    later := HoldsFrom(b, i + 1);
  }

  lemma NextNodes(done: multiset<nat>, chains: seq<seq<nat>>, i: nat, all: multiset<nat>) returns (later: multiset<nat>)
    requires i < |chains| && Leaves(done, NodesFrom(chains, i), all)
    ensures later == NodesFrom(chains, i + 1) && Leaves(done, multiset(chains[i]) + later, all)
  {
    later := NodesFrom(chains, i + 1);
  }

  lemma LastLeaves(b: Buckets, chains: seq<seq<nat>>, destroyed: multiset<Stored>, values: multiset<Stored>,
                   freed: multiset<nat>, nodes: multiset<nat>)
    requires |chains| == TABLE_SIZE && Leaves(destroyed, HoldsFrom(b, TABLE_SIZE), values)
    requires Leaves(freed, NodesFrom(chains, TABLE_SIZE), nodes)
    ensures destroyed == values && freed == nodes
  {
  }

  /** What is done and what is still to do come to `all`. */
  ghost predicate Leaves<T>(done: multiset<T>, todo: multiset<T>, all: multiset<T>) {
    done + todo == all
  }

  lemma Shift<T>(done: multiset<T>, part: multiset<T>, rest: multiset<T>, later: multiset<T>, all: multiset<T>)
    requires Leaves(done, (part + rest) + later, all)
    ensures Leaves(done + part, rest + later, all)
  {
    assert (done + part) + (rest + later) == done + ((part + rest) + later);
  }

  lemma Advance(done: multiset<Stored>, st: Stored, items: seq<Item>, j: nat,
                later: multiset<Stored>, all: multiset<Stored>)
    requires j < |items| && items[j].stored == st && Leaves(done, ChainHolds(items[j..]) + later, all)
    ensures Leaves(done + Owned(st), ChainHolds(items[j + 1..]) + later, all)
  {
    assert items[j..][1..] == items[j + 1..];
    Shift(done, Owned(st), ChainHolds(items[j + 1..]), later, all);
  }

  lemma AdvanceNodes(done: multiset<nat>, chain: seq<nat>, j: nat, later: multiset<nat>, all: multiset<nat>)
    requires j < |chain| && Leaves(done, multiset(chain[j..]) + later, all)
    ensures Leaves(done + multiset{chain[j]}, multiset(chain[j + 1..]) + later, all)
  {
    assert chain[j..] == [chain[j]] + chain[j + 1..];
    Shift(done, multiset{chain[j]}, multiset(chain[j + 1..]), later, all);
  }

  /** `was` describes the removal of `key`, which is at position `m` of chain `i` or absent. */
  ghost predicate Removing(was: Removal, i: nat, key: Key, m: nat) {
    && |was.chains| == TABLE_SIZE && i < TABLE_SIZE && |was.chains[i]| == |was.before[i]| && m <= |was.before[i]|
    && Apart(was.chains)
    && (forall k | 0 <= k < |was.before[i]| :: was.before[i][k].key == key <==> k == m)
    && (m < |was.before[i]| ==>
          && was.after == was.before[i := if m == 0 then [] else Drop(was.before[i], m)]
          && was.chainsAfter == was.chains[i := if m == 0 then [] else Drop(was.chains[i], m)]
          && was.destroyedAfter == was.destroyedBefore + Owned(was.before[i][m].stored)
          && was.freedAfter == was.freedBefore + multiset{was.chains[i][m]})
    && (m == |was.before[i]| ==>
          && was.after == was.before && was.chainsAfter == was.chains
          && was.destroyedAfter == was.destroyedBefore && was.freedAfter == was.freedBefore)
  }

  lemma RemovingAt(was: Removal, i: nat, key: Key, m: nat, j: nat)
    requires Removing(was, i, key, m) && j < |was.chains[i]|
    ensures was.before[i][j].key == key <==> j == m
    ensures j == m ==>
              && was.after == was.before[i := if j == 0 then [] else Drop(was.before[i], j)]
              && was.chainsAfter == was.chains[i := if j == 0 then [] else Drop(was.chains[i], j)]
              && was.destroyedAfter == was.destroyedBefore + Owned(was.before[i][j].stored)
              && was.freedAfter == was.freedBefore + multiset{was.chains[i][j]}
  {
  }

  /** The chains after a removal of the node at position `m` of chain `i`, if there is one. */
  lemma RemovedChains(mem: Memory, chains: seq<seq<nat>>, heads: seq<nat>, b: Buckets,
                      freed: multiset<nat>, i: nat, m: nat)
    returns (after: seq<seq<nat>>)
    requires Shape(mem, heads, chains, b) && Apart(chains) && FreedOnce(mem.Keys, chains, freed) && i < TABLE_SIZE
    ensures after == if m < |chains[i]| then chains[i := if m == 0 then [] else Drop(chains[i], m)] else chains
    ensures FreedOnce(mem.Keys, after, freed + if m < |chains[i]| then multiset{chains[i][m]} else multiset{})
  {
    if m < |chains[i]| {
      assert Represents(mem, chains[i], heads[i], b[i]);
      assert NodeIs(mem, chains[i], b[i], m);
      UnlinkFreedOnce(mem.Keys, chains, freed, i, m);
      after := chains[i := if m == 0 then [] else Drop(chains[i], m)];
    } else {
      after := chains;
    }
  }

  /** The removal of `key` from a table in good shape, planned: what is there before, and
      what has to be there afterwards. */
  lemma PlanRemoval(mem: Memory, heads: seq<nat>, chains: seq<seq<nat>>, b: Buckets,
                    destroyed: multiset<Stored>, freed: multiset<nat>, key: Key)
    returns (was: Removal, m: nat)
    requires Shape(mem, heads, chains, b) && WellFormed(b) && FreedOnce(mem.Keys, chains, freed)
    ensures was.chains == chains && was.before == b && was.destroyedBefore == destroyed && was.freedBefore == freed
    ensures was.after == Apply(b, Rm(key)) && was.destroyedAfter == destroyed + Destroys(b, Rm(key))
    ensures was.freedAfter == freed + RemovedNode(chains, b, key)
    ensures Removing(was, Bucket(key), key, m) && WellFormed(was.after)
    ensures FreedOnce(mem.Keys, was.chainsAfter, was.freedAfter)
    ensures Walkable(mem, chains[Bucket(key)], b[Bucket(key)], 0) && heads[Bucket(key)] == At(chains[Bucket(key)], 0)
  {
    var i := Bucket(key);
    m := IndexOf(b[i], key);
    ApplyWellFormed(b, Rm(key));
    ShapeApart(mem, heads, chains, b);
    ChainShape(mem, heads, chains, b, i);
    StartWalk(mem, chains[i], heads[i], b[i]);
    var after := RemovedChains(mem, chains, heads, b, freed, i, m);
    was := Removal(chains, b, destroyed, freed, after, Apply(b, Rm(key)), destroyed + Destroys(b, Rm(key)),
                   freed + RemovedNode(chains, b, key));
    StartRemoving(was, i, key, m);
  }

  lemma StartRemoving(was: Removal, i: nat, key: Key, m: nat)
    requires |was.chains| == TABLE_SIZE && Apart(was.chains) && WellFormed(was.before)
    requires i == Bucket(key) && |was.chains[i]| == |was.before[i]| && m == IndexOf(was.before[i], key)
    requires was.after == Apply(was.before, Rm(key))
    requires was.destroyedAfter == was.destroyedBefore + Destroys(was.before, Rm(key))
    requires was.chainsAfter ==
             if m < |was.chains[i]| then was.chains[i := if m == 0 then [] else Drop(was.chains[i], m)]
             else was.chains
    requires was.freedAfter == was.freedBefore + RemovedNode(was.chains, was.before, key)
    ensures Removing(was, i, key, m)
  {
  }

  /** What the walk needs of a node. */
  ghost predicate NodeLinks(m: Memory, chain: seq<nat>, items: seq<Item>, k: nat)
    requires k < |chain| == |items|
  {
    && chain[k] != NULL && chain[k] in m
    && m[chain[k]].next == At(chain, k + 1) && m[chain[k]].key == items[k].key
  }

  /** From position `j` on, the links still lead along the chain. */
  ghost predicate Walkable(m: Memory, chain: seq<nat>, items: seq<Item>, j: nat) {
    |chain| == |items| && forall k | j <= k < |chain| :: NodeLinks(m, chain, items, k)
  }

  lemma NextNode(m: Memory, chain: seq<nat>, items: seq<Item>, j: nat)
    requires Walkable(m, chain, items, j) && j <= |chain|
    ensures At(chain, j) == NULL <==> j == |chain|
  {
    if j < |chain| {
      assert NodeLinks(m, chain, items, j);
    }
  }

  lemma StartWalk(m: Memory, chain: seq<nat>, head: nat, items: seq<Item>)
    requires Represents(m, chain, head, items)
    ensures Walkable(m, chain, items, 0) && head == At(chain, 0)
  {
    forall k | 0 <= k < |chain| ensures NodeLinks(m, chain, items, k) {
      assert NodeIs(m, chain, items, k);
    }
  }

  lemma NodeAt(m: Memory, chain: seq<nat>, head: nat, items: seq<Item>, j: nat)
    requires Represents(m, chain, head, items) && j < |chain|
    ensures NodeIs(m, chain, items, j)
    ensures j > 0 ==> NodeIs(m, chain, items, j - 1)
  {
  }

  lemma PutCases(b: Buckets, op: Op)
    requires op.Put?
    ensures var i, j := Bucket(op.item.key), IndexOf(Chain(b, op.item.key), op.item.key);
      if j < |b[i]| then
        Succeeds(b, op) && Apply(b, op) == b[i := b[i][j := op.item]] && DestroysIn(b, op) == Owned(b[i][j].stored)
      else
        && DestroysIn(b, op) == multiset{}
        && (Succeeds(b, op) <==> op.memory) && Apply(b, op) == if op.memory then b[i := b[i] + [op.item]] else b
  {
  }

  lemma LastNode(m: Memory, chain: seq<nat>, head: nat, items: seq<Item>)
    requires Represents(m, chain, head, items)
    ensures chain != [] ==> chain[|chain| - 1] != NULL && chain[|chain| - 1] in m
  {
    if chain != [] {
      assert NodeIs(m, chain, items, |chain| - 1);
    }
  }

  lemma EndOfChain(m: Memory, chain: seq<nat>, head: nat, items: seq<Item>, j: nat)
    requires Represents(m, chain, head, items) && j <= |chain|
    ensures At(chain, j) == NULL <==> j == |chain|
  {
    if j < |chain| {
      assert NodeIs(m, chain, items, j);
    }
  }
}
