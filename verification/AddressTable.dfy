/** The operations of the address map, proved to act on a plain map from addresses to values. */
module AddressTable {
  import opened Basics
  import opened ObjectChains
  import opened AddressMap

  /** The memory the map owns: the hash table, the free list, and the fields of its clusters and
      entries. `top` is the next unused pointer. */
  datatype Memory<V> = Memory(hashtable: seq<Ptr>, free: Ptr,
                              cnext: map<Ptr, Ptr>, cid: map<Ptr, nat>, blocks: map<Ptr, seq<Ptr>>,
                              enext: map<Ptr, Ptr>, ekey: map<Ptr, nat>, evalue: map<Ptr, V>, top: Ptr)

  /** What the links in the memory amount to. */
  datatype Shape = Shape(chains: seq<seq<Ptr>>, clusters: map<nat, Ptr>, lists: Lists, where: map<nat, Ptr>,
    freeChain: seq<Ptr>)

  ghost predicate MemoryInv<V>(m: Memory<V>, g: Shape) {
    && HashInv(m.hashtable, m.cnext, m.cid, g.chains, g.clusters)
    && BlockInv(m.blocks, g.clusters, m.enext, g.lists)
    && EntryInv(m.ekey, g.lists, g.where)
    && FreeInv(m.enext, m.free, g.freeChain, g.lists)
    && AllocInv(m.top, m.enext, m.cnext, m.ekey, m.cid)
    && (forall k :: k in g.where ==> g.where[k] in m.evalue)
  }

  ghost function Contents<V>(m: Memory<V>, g: Shape): map<nat, V>
    requires MemoryInv(m, g)
  {
    map k | k in g.where :: m.evalue[g.where[k]]
  }

  class Table<V> {
    var m: Memory<V>
    ghost var g: Shape

    ghost predicate Valid()
      reads this
    {
      MemoryInv(m, g)
    }

    /** The plain map the structure stands for. */
    ghost function View(): map<nat, V>
      reads this
      requires Valid()
    {
      Contents(m, g)
    }

    constructor ()
      ensures Valid() && View() == map[]
    {
      m := Memory(seq(HASH_SIZE, _ => NULL), NULL, map[], map[], map[], map[], map[], map[], 1);
      g := Shape(seq(HASH_SIZE, _ => []), map[], map[], map[], []);
    }

    /** FindCluster without creating. */
    method FindCluster(address: nat) returns (c: Ptr)
      requires Valid()
      ensures c == if ClusterId(address) in g.clusters then g.clusters[ClusterId(address)] else NULL
      ensures c != NULL <==> ClusterId(address) in g.clusters
    {
      hide HashInv, BlockInv, EntryInv, FreeInv, AllocInv, HashInt, ClusterId;
      var id := ClusterId(address);
      var h := HashInt(id);
      Bucket(m.hashtable, m.cnext, m.cid, g.chains, g.clusters, id);
      ghost var xs := g.chains[h];
      c := m.hashtable[h];
      ghost var i := 0;
      while c != NULL
        invariant i <= |xs| && c == At(xs, i) && forall j :: 0 <= j < i ==> xs[j] in m.cid && m.cid[xs[j]] != id
        decreases |xs| - i
      {
        assert xs[i] in xs;
        if m.cid[c] == id { return; }
        c := m.cnext[c];
        i := i + 1;
      }
    }

    /** FindCluster, creating the cluster when it is missing. */
    method GetCluster(address: nat) returns (c: Ptr)
      requires Valid()
      modifies this
      ensures Valid() && View() == old(View()) && g.where == old(g.where)
      ensures ClusterId(address) in g.clusters && c == g.clusters[ClusterId(address)]
    {
      hide MemoryInv, HashInt, ClusterId, NoHeads;
      c := FindCluster(address);
      if c == NULL {
        var id := ClusterId(address);
        var h := HashInt(id);
        c := m.top;
        g := WithCluster(m, g, id);
        m := m.(top := m.top + 1, cid := m.cid[c := id], cnext := m.cnext[c := m.hashtable[h]],
        blocks := m.blocks[c := NoHeads()], hashtable := m.hashtable[h := c]);
      }
    }

    /** FindMutable: the entry that holds the value of key, or NULL. */
    method FindMutable(key: nat) returns (e: Ptr)
      requires Valid()
      ensures e == if key in g.where then g.where[key] else NULL
      ensures e != NULL <==> key in View()
    {
      hide MemoryInv, ClusterId, BlockId;
      var c := FindCluster(key);
      if c == NULL {
        NoCluster(m, g, key);
        return NULL;
      }
      ListFacts(m, g, ClusterId(key), BlockId(key));
      ghost var i;
      e, i := FindInList(ClusterId(key), BlockId(key), m.blocks[c][BlockId(key)], key);
    }

    /** Walks one block's list for a key that belongs to that block. */
    method FindInList(ghost id: nat, ghost b: nat, head: Ptr, key: nat) returns (e: Ptr, ghost i: nat)
      requires Valid() && id in g.clusters && id in g.lists && b < |g.lists[id]| && Chain(m.enext, head, g.lists[id][b])
      requires ClusterId(key) == id && BlockId(key) == b
      ensures e == if key in g.where then g.where[key] else NULL
      ensures e != NULL <==> key in g.where
      ensures e != NULL ==> i < |g.lists[id][b]| && g.lists[id][b][i] == e
    {
      hide HashInv, BlockInv, FreeInv, AllocInv, ClusterId, BlockId;
      ghost var xs := g.lists[id][b];
      e := head;
      i := 0;
      while e != NULL
        invariant i <= |xs| && e == At(xs, i) && forall j :: 0 <= j < i ==> xs[j] in m.ekey && m.ekey[xs[j]] != key
        decreases |xs| - i
      {
        assert Listed(g.lists, id, b, xs[i]);
        if m.ekey[e] == key { return; }
        e := m.enext[e];
        i := i + 1;
      }
      assert key in g.where ==> Listed(g.lists, id, b, g.where[key]);
    }

    /** Find: what the plain map gives for key. */
    method Find(key: nat) returns (found: bool, e: Ptr)
      requires Valid()
      ensures found == (key in View()) && (found ==> e in m.evalue && m.evalue[e] == View()[key])
    {
      e := FindMutable(key);
      found := e != NULL;
    }

    /** Writing through the pointer FindMutable returned. */
    method SetValue(ghost key: nat, e: Ptr, value: V)
      requires Valid() && key in g.where && g.where[key] == e
      modifies this
      ensures Valid() && View() == old(View())[key := value] && g == old(g) && m.ekey == old(m.ekey)
    {
      hide HashInv, BlockInv, FreeInv, AllocInv;
      ValuesApart(m.ekey, g.lists, g.where);
      m := m.(evalue := m.evalue[e := value]);
    }

    /** Insert: any old value of the key is forgotten. */
    method Insert(key: nat, value: V)
      requires Valid()
      modifies this
      ensures Valid() && View() == old(View())[key := value]
    {
      hide MemoryInv, ClusterId, BlockId;
      var c := GetCluster(key);
      ListFacts(m, g, ClusterId(key), BlockId(key));
      var b := BlockId(key);
      var e;
      ghost var i;
      e, i := FindInList(ClusterId(key), b, m.blocks[c][b], key);
      if e != NULL {
        SetValue(key, e, value);
        return;
      }
      if m.free == NULL {
        AllocEntries();
      }
      FreeFacts(m, g);
      ListFacts(m, g, ClusterId(key), b);
      e := m.free;
      g := WithEntry(m, g, key, value);
      m := m.(free := m.enext[e], ekey := m.ekey[e := key], evalue := m.evalue[e := value],
      enext := m.enext[e := m.blocks[c][b]], blocks := m.blocks[c := SetAt(m.blocks[c], b, e)]);
    }

    /** A new batch of entries goes on the free list. */
    method AllocEntries()
      requires Valid() && m.free == NULL
      modifies this
      ensures Valid() && View() == old(View()) && g == old(g).(freeChain := g.freeChain) && g.freeChain != []
      ensures m.blocks == old(m.blocks)
    {
      hide HashInv, BlockInv, EntryInv, FreeInv;
      var base := m.top;
      var next: map<Ptr, Ptr> := m.enext;
      var i: nat := 0;
      while i < ALLOC_COUNT - 1
        invariant 0 <= i <= ALLOC_COUNT - 1
        invariant forall p :: p in next <==> p in m.enext || base <= p < base + i
        invariant forall p :: p in m.enext ==> next[p] == m.enext[p]
        invariant forall p :: base <= p < base + i ==> next[p] == p + 1
      {
        next := next[base + i := base + i + 1];
        i := i + 1;
      }
      next := next[base + ALLOC_COUNT - 1 := m.free];
      g := WithBatch(m, g, next);
      m := m.(enext := next, free := base, top := base + ALLOC_COUNT);
    }

    /** FindAndRemove: unlinks the entry of key, if any, and recycles it. */
    method FindAndRemove(key: nat) returns (found: bool, removed: Ptr)
      requires Valid()
      modifies this
      ensures Valid() && View() == old(View()) - {key} && found == (key in old(View()))
      ensures found ==> removed in old(m).evalue && old(m).evalue[removed] == old(View())[key]
    {
      hide MemoryInv, ClusterId, BlockId;
      found, removed := false, NULL;
      var c := FindCluster(key);
      if c == NULL {
        NoCluster(m, g, key);
        assert View() == View() - {key};
        return;
      }
      var b := BlockId(key);
      ListFacts(m, g, ClusterId(key), b);
      var prev, e := FindLink(ClusterId(key), b, m.blocks[c][b], key);
      if e == NULL {
        assert View() == View() - {key};
        return;
      }
      found, removed := true, e;
      var next := m.enext[e := m.free];
      var blocks := m.blocks;
      ghost var g2 := WithoutEntry(m, g, key, prev, e);
      if prev == NULL {
        blocks := m.blocks[c := SetAt(m.blocks[c], b, m.enext[e])];
      } else {
        next := m.enext[prev := m.enext[e]][e := m.free];
      }
      g := g2;
      m := m.(enext := next, blocks := blocks, free := e);
    }

    /** The entry of key and the entry before it on its list. */
    method FindLink(ghost id: nat, ghost b: nat, head: Ptr, key: nat) returns (prev: Ptr, e: Ptr)
      requires Valid() && id in g.clusters && id in g.lists && b < |g.lists[id]| && Chain(m.enext, head, g.lists[id][b])
      requires ClusterId(key) == id && BlockId(key) == b
      ensures e == if key in g.where then g.where[key] else NULL
      ensures e != NULL <==> key in g.where
      ensures e != NULL ==> Before(g.lists[id][b], prev, e)
    {
      hide Before, HashInv, BlockInv, FreeInv, AllocInv, ClusterId, BlockId;
      ghost var xs := g.lists[id][b];
      prev, e := NULL, head;
      ghost var i := 0;
      while e != NULL
        invariant i <= |xs| && e == At(xs, i) && prev == (if i == 0 then NULL else xs[i - 1])
        invariant forall j :: 0 <= j < i ==> xs[j] in m.ekey && m.ekey[xs[j]] != key
        decreases |xs| - i
      {
        assert Listed(g.lists, id, b, xs[i]);
        if m.ekey[e] == key {
          BeforeAt(xs, i);
          return;
        }
        prev := e;
        e := m.enext[e];
        i := i + 1;
      }
      assert key in g.where ==> Listed(g.lists, id, b, g.where[key]);
    }

    /** Iterate: the entries in the order the callback sees them. */
    method Iterate() returns (visits: seq<Ptr>)
      requires Valid()
      ensures NoDup(visits)
      ensures (forall e :: e in visits <==> e in m.ekey && m.ekey[e] in g.where && g.where[m.ekey[e]] == e)
      ensures forall k :: k in View() ==> g.where[k] in visits
    {
      hide MemoryInv, HashInt, AllVisits, BucketVisits, ClusterVisits, Chain;
      visits := [];
      var h := 0;
      FlatStart(AllVisits(m, g));
      while h < HASH_SIZE
        invariant 0 <= h <= HASH_SIZE && visits == Flat(AllVisits(m, g)[..h])
      {
        visits := VisitBucket(h, visits);
        FlatNext(AllVisits(m, g), h);
        h := h + 1;
      }
      assert AllVisits(m, g)[..HASH_SIZE] == AllVisits(m, g);
      VisitsOnce(m, g);
    }

    method VisitBucket(h: nat, before: seq<Ptr>) returns (visits: seq<Ptr>)
      requires Valid() && h < HASH_SIZE
      ensures visits == before + AllVisits(m, g)[h]
    {
      hide MemoryInv, HashInt, ClusterVisits, Flat, BucketVisits, AllVisits;
      BucketFacts(m, g, h);
      BucketRows(m, g, h);
      ghost var xs, rows := g.chains[h], BucketVisits(m, g, h);
      visits := before;
      var c := m.hashtable[h];
      ghost var i := 0;
      FlatStart(rows);
      while c != NULL
        invariant i <= |xs| && c == At(xs, i) && visits == before + Flat(rows[..i])
        decreases |xs| - i
      {
        assert xs[i] in xs;
        visits := VisitCluster(m.cid[c], c, visits);
        FlatNext(rows, i);
        JoinThree(before, Flat(rows[..i]), rows[i]);
        c := m.cnext[c];
        i := i + 1;
      }
      assert rows[..|xs|] == rows;
    }

    method VisitCluster(ghost id: nat, c: Ptr, before: seq<Ptr>) returns (visits: seq<Ptr>)
      requires Valid() && id in g.clusters && g.clusters[id] == c
      ensures visits == before + ClusterVisits(g, id)
    {
      hide MemoryInv, Flat, Chain;
      ListFacts(m, g, id, 0);
      ghost var rows := g.lists[id];
      visits := before;
      var b := 0;
      FlatStart(rows);
      while b < CLUSTER_BLOCKS
        invariant 0 <= b <= CLUSTER_BLOCKS && visits == before + Flat(rows[..b])
      {
        ListFacts(m, g, id, b);
        visits := VisitList(m.blocks[c][b], rows[b], visits);
        FlatNext(rows, b);
        b := b + 1;
      }
      assert rows[..CLUSTER_BLOCKS] == rows;
    }

    method VisitList(head: Ptr, ghost list: seq<Ptr>, before: seq<Ptr>) returns (visits: seq<Ptr>)
      requires Chain(m.enext, head, list)
      ensures visits == before + list
    {
      visits := before;
      var e := head;
      ghost var k := 0;
      while e != NULL
        invariant k <= |list| && e == At(list, k) && visits == before + list[..k]
        decreases |list| - k
      {
        visits := visits + [e];
        e := m.enext[e];
        k := k + 1;
      }
      assert list[..k] == list;
    }

    /** FindInside: backwards from the key's block, block by block and cluster by cluster, until a
        stored range covers the key, a range below it does not, or the distance passes maxSize. */
    method FindInside(sizeOf: V -> nat, maxSize: nat, key: nat) returns (e: Ptr, res: nat)
      requires Valid() && key < WORD && NonOverlapping(View(), sizeOf)
      ensures e != NULL ==> Covered(View(), sizeOf, key, res) && res in g.where && e == g.where[res]
      ensures e != NULL <==> exists k :: Covered(View(), sizeOf, key, k) && InReach(k, key, maxSize)
      ensures e != NULL ==> forall k :: Covered(View(), sizeOf, key, k) ==> k == res
    {
      hide MemoryInv, Contents, ClusterId, BlockId, NonOverlapping, Covered, InReach, NoneAbove, InBlock;
      var num: nat := key;
      e, res := NULL, 0;
      ghost var view := View();
      KeysStored(m, g);
      StartAbove(view, key);
      while true
        invariant e == NULL && num <= key && NoneAbove(view, key, num) && AtStop(num, key, maxSize)
        decreases num
      {
        ghost var num0 := num;
        var c := FindCluster(num);
        if c != NULL {
          while true
            invariant num <= num0 && ClusterId(num) == ClusterId(num0) && num <= key && NoneAbove(view, key, num)
            invariant e == NULL && AtStop(num, key, maxSize)
            decreases num
          {
            var block, smaller := BlockId(num), false;
            ListFacts(m, g, ClusterId(num), block);
            e, smaller := ScanList(ClusterId(num), block, m.blocks[c][block], sizeOf, key);
            if e != NULL {
              res := m.ekey[e];
              FoundRange(view, sizeOf, key, res, num, maxSize);
              return;
            }
            BlockScanned(m, g, sizeOf, key, num, smaller);
            if smaller {
              PassedRange(view, sizeOf, key, num);
              return;
            }
            if block == 0 { break; }
            PreviousBlock(view, key, num);
            num := num / BLOCK_SIZE * BLOCK_SIZE + (BLOCK_SIZE - 1) - BLOCK_SIZE;
            if key - num > maxSize {
              OutOfReach(view, sizeOf, key, num, maxSize);
              return;
            }
          }
          ClusterScanned(view, key, num);
        } else {
          ClusterMissing(m, g, key, num);
        }
        if num < CLUSTER_SIZE {
          NothingLeft(view, sizeOf, key, num);
          return;
        }
        PreviousCluster(view, key, num);
        num := num / CLUSTER_SIZE * CLUSTER_SIZE + (CLUSTER_SIZE - 1) - CLUSTER_SIZE;
        if key - num > maxSize {
          OutOfReach(view, sizeOf, key, num, maxSize);
          return;
        }
      }
    }

    /** One block: the first entry that covers the key, else whether any starts at or below it. */
    method ScanList(ghost id: nat, ghost b: nat, head: Ptr, sizeOf: V -> nat, key: nat) returns (e: Ptr, smaller: bool)
      requires Valid() && id in g.lists && b < |g.lists[id]| && Chain(m.enext, head, g.lists[id][b])
      requires NonOverlapping(View(), sizeOf)
      ensures e != NULL ==> e in m.ekey && m.ekey[e] in g.where && g.where[m.ekey[e]] == e && InBlock(m.ekey[e], id, b)
                            && Covered(View(), sizeOf, key, m.ekey[e])
      ensures e == NULL ==> forall k :: k in g.where && InBlock(k, id, b) ==> !Covered(View(), sizeOf, key, k)
      ensures e == NULL ==> (smaller <==> exists k :: k in g.where && InBlock(k, id, b) && k <= key)
    {
      hide MemoryInv, Contents, ClusterId, BlockId, InBlock, Covered, NonOverlapping, HitBy, KeysAlong;
      ghost var xs, view := g.lists[id][b], View();
      ghost var keys := ListKeys(m, g, id, b);
      e, smaller := head, false;
      ghost var i, w := 0, 0;
      while e != NULL
        invariant i <= |xs| && e == At(xs, i)
        invariant forall j :: 0 <= j < i ==> !Covered(view, sizeOf, key, keys[j])
        invariant if smaller then 0 <= w < i && keys[w] <= key else forall j :: 0 <= j < i ==> keys[j] > key
        decreases |xs| - i
      {
        ListEntry(m, g, id, b, keys, i);
        var start := m.ekey[e];
        CoverTest(view, sizeOf, key, start);
        if start <= key {
          if HitBy(start, sizeOf(m.evalue[e]), key) { return; }
          smaller, w := true, i;
        }
        e := m.enext[e];
        i := i + 1;
      }
      ScannedAll(m, g, id, b, keys, sizeOf, key, smaller, w);
    }
  }

  // ----- the backward search -----

  /** Stored ranges follow one another without overlap and end inside the address space. */
  ghost predicate NonOverlapping<V>(c: map<nat, V>, sizeOf: V -> nat) {
    && (forall j, k :: j in c && k in c && j < k ==> j + sizeOf(c[j]) <= k)
    && (forall k :: k in c ==> k + sizeOf(c[k]) < WORD)
  }

  /** The range stored at k starts at the key or contains it. */
  ghost predicate Covered<V>(c: map<nat, V>, sizeOf: V -> nat, key: nat, k: nat) {
    k in c && (k == key || k <= key < k + sizeOf(c[k]))
  }

  /** The block of k is the key's own, or ends at most maxSize bytes below the key. */
  ghost predicate InReach(k: nat, key: nat, maxSize: nat) {
    k / BLOCK_SIZE == key / BLOCK_SIZE || key - (k / BLOCK_SIZE * BLOCK_SIZE + BLOCK_SIZE - 1) <= maxSize
  }

  /** No range starts at or below the key in a block above that of num. */
  ghost predicate NoneAbove<V>(c: map<nat, V>, key: nat, num: nat) {
    forall k :: k in c && k <= key ==> k / BLOCK_SIZE <= num / BLOCK_SIZE
  }

  /** Nor in the cluster of num. */
  ghost predicate NoneInCluster<V>(c: map<nat, V>, key: nat, num: nat) {
    forall k :: k in c && k <= key ==> k / CLUSTER_SIZE < num / CLUSTER_SIZE
  }

  /** Where the search stands: at the key, or at the end of a block not too far below it. */
  ghost predicate AtStop(num: nat, key: nat, maxSize: nat) {
    num == key || (num % BLOCK_SIZE == BLOCK_SIZE - 1 && key - num <= maxSize)
  }

  ghost predicate InBlock(k: nat, id: nat, b: nat) {
    ClusterId(k) == id && BlockId(k) == b
  }

  lemma BlockIs(j: nat, k: nat)
    ensures InBlock(j, ClusterId(k), BlockId(k)) <==> j / BLOCK_SIZE == k / BLOCK_SIZE
  {
    BlockSplits(j);
    BlockSplits(k);
  }

  lemma BlockKeysAre<V>(m: Memory<V>, g: Shape, id: nat, b: nat)
    requires MemoryInv(m, g) && id in g.lists && b < |g.lists[id]|
    ensures forall e :: e in g.lists[id][b] ==>
              && e in m.ekey && m.ekey[e] in g.where && g.where[m.ekey[e]] == e && e in m.evalue
              && InBlock(m.ekey[e], id, b)
              && m.ekey[e] in Contents(m, g) && Contents(m, g)[m.ekey[e]] == m.evalue[e]
    ensures forall k :: k in g.where && InBlock(k, id, b) ==> g.where[k] in g.lists[id][b] && m.ekey[g.where[k]] == k
  {
    hide HashInv, BlockInv, FreeInv, AllocInv, ClusterId, BlockId;
    forall e | e in g.lists[id][b]
      ensures e in m.ekey && m.ekey[e] in g.where && g.where[m.ekey[e]] == e && InBlock(m.ekey[e], id, b)
    {
      assert Listed(g.lists, id, b, e);
    }
    forall k | k in g.where && InBlock(k, id, b) ensures g.where[k] in g.lists[id][b] && m.ekey[g.where[k]] == k {
      assert Listed(g.lists, ClusterId(k), BlockId(k), g.where[k]);
    }
  }

  /** The test on an entry at or below the key; the end of the range is computed in 64 bits. */
  predicate HitBy(start: nat, size: nat, key: nat) {
    start == key || key < (start + size) % WORD
  }

  /** The test made on each entry, in 64-bit arithmetic, is the covering test. */
  lemma CoverTest<V>(c: map<nat, V>, sizeOf: V -> nat, key: nat, start: nat)
    requires NonOverlapping(c, sizeOf) && start in c
    ensures Covered(c, sizeOf, key, start) <==> start <= key && HitBy(start, sizeOf(c[start]), key)
  {
  }

  /** keys are the keys of the entries on a list, in order. */
  ghost predicate KeysAlong<V>(m: Memory<V>, xs: seq<Ptr>, keys: seq<nat>) {
    |keys| == |xs| && forall j :: 0 <= j < |xs| ==> xs[j] in m.ekey && m.ekey[xs[j]] == keys[j]
  }

  lemma ListKeys<V>(m: Memory<V>, g: Shape, id: nat, b: nat) returns (keys: seq<nat>)
    requires MemoryInv(m, g) && id in g.lists && b < |g.lists[id]|
    ensures KeysAlong(m, g.lists[id][b], keys) && |keys| == |g.lists[id][b]|
  {
    hide MemoryInv, Contents, InBlock;
    BlockKeysAre(m, g, id, b);
    var xs := g.lists[id][b];
    forall j | 0 <= j < |xs| ensures xs[j] in m.ekey { assert xs[j] in xs; }
    keys := seq(|xs|, j requires 0 <= j < |xs| => m.ekey[xs[j]]);
  }

  lemma ListEntry<V>(m: Memory<V>, g: Shape, id: nat, b: nat, keys: seq<nat>, i: nat)
    requires MemoryInv(m, g) && id in g.lists && b < |g.lists[id]| && KeysAlong(m, g.lists[id][b], keys) && i < |keys|
    ensures var e := g.lists[id][b][i];
            && e in m.ekey && m.ekey[e] == keys[i] && keys[i] in g.where && g.where[keys[i]] == e
            && InBlock(keys[i], id, b)
            && e in m.evalue && keys[i] in Contents(m, g) && Contents(m, g)[keys[i]] == m.evalue[e]
  {
    hide MemoryInv, Contents, InBlock;
    BlockKeysAre(m, g, id, b);
    assert g.lists[id][b][i] in g.lists[id][b];
  }

  lemma ScannedAll<V>(m: Memory<V>, g: Shape, id: nat, b: nat, keys: seq<nat>, sizeOf: V -> nat, key: nat,
                      smaller: bool, w: nat)
    requires MemoryInv(m, g) && id in g.lists && b < |g.lists[id]| && KeysAlong(m, g.lists[id][b], keys)
    requires forall j :: 0 <= j < |keys| ==> !Covered(Contents(m, g), sizeOf, key, keys[j])
    requires if smaller then w < |keys| && keys[w] <= key else forall j :: 0 <= j < |keys| ==> keys[j] > key
    ensures forall k :: k in g.where && InBlock(k, id, b) ==> !Covered(Contents(m, g), sizeOf, key, k)
    ensures smaller <==> exists k :: k in g.where && InBlock(k, id, b) && k <= key
  {
    hide MemoryInv, Contents, ClusterId, BlockId, InBlock, Covered;
    BlockKeysAre(m, g, id, b);
    var xs := g.lists[id][b];
    forall k | k in g.where && InBlock(k, id, b) ensures k in keys {
      var j :| 0 <= j < |xs| && xs[j] == g.where[k];
      assert keys[j] == k;
    }
    if smaller { ListEntry(m, g, id, b, keys, w); }
  }

  lemma StartAbove<V>(c: map<nat, V>, key: nat)
    ensures NoneAbove(c, key, key)
  {
  }

  lemma FoundRange<V>(c: map<nat, V>, sizeOf: V -> nat, key: nat, res: nat, num: nat, maxSize: nat)
    requires NonOverlapping(c, sizeOf) && Covered(c, sizeOf, key, res) && InBlock(res, ClusterId(num), BlockId(num))
    requires num <= key && AtStop(num, key, maxSize)
    ensures InReach(res, key, maxSize) && forall k :: Covered(c, sizeOf, key, k) ==> k == res
  {
    BlockIs(res, num);
  }

  /** What a scanned block tells: nothing in it covers the key, and whether anything is below it. */
  lemma BlockScanned<V>(m: Memory<V>, g: Shape, sizeOf: V -> nat, key: nat, num: nat, smaller: bool)
    requires MemoryInv(m, g)
    requires forall k :: k in g.where && InBlock(k, ClusterId(num), BlockId(num)) ==>
             !Covered(Contents(m, g), sizeOf, key, k)
    requires smaller <==> exists k :: k in g.where && InBlock(k, ClusterId(num), BlockId(num)) && k <= key
    ensures forall k :: k in Contents(m, g) && k / BLOCK_SIZE == num / BLOCK_SIZE ==>
            !Covered(Contents(m, g), sizeOf, key, k)
    ensures smaller <==> exists k :: k in Contents(m, g) && k / BLOCK_SIZE == num / BLOCK_SIZE && k <= key
  {
    hide MemoryInv, ClusterId, BlockId, Covered, InBlock;
    KeysStored(m, g);
    forall k: nat
      ensures InBlock(k, ClusterId(num), BlockId(num)) <==> k / BLOCK_SIZE == num / BLOCK_SIZE
    {
      BlockIs(k, num);
    }
    assert smaller ==> exists k :: k in Contents(m, g) && k / BLOCK_SIZE == num / BLOCK_SIZE && k <= key by {
      if smaller { var k :| k in g.where && InBlock(k, ClusterId(num), BlockId(num)) && k <= key; }
    }
  }

  /** A range below the key that does not reach it hides all ranges further down. */
  lemma PassedRange<V>(c: map<nat, V>, sizeOf: V -> nat, key: nat, num: nat)
    requires NonOverlapping(c, sizeOf) && NoneAbove(c, key, num)
    requires forall k :: k in c && k / BLOCK_SIZE == num / BLOCK_SIZE ==> !Covered(c, sizeOf, key, k)
    requires exists k :: k in c && k / BLOCK_SIZE == num / BLOCK_SIZE && k <= key
    ensures forall k :: !Covered(c, sizeOf, key, k)
  {
    var near :| near in c && near / BLOCK_SIZE == num / BLOCK_SIZE && near <= key;
    forall k: nat ensures !Covered(c, sizeOf, key, k) {
      if k in c && k <= key && k / BLOCK_SIZE < num / BLOCK_SIZE { assert k < near; }
    }
  }

  lemma PreviousBlock<V>(c: map<nat, V>, key: nat, num: nat)
    requires NoneAbove(c, key, num) && num <= key && BlockId(num) != 0
    requires !exists k :: k in c && k / BLOCK_SIZE == num / BLOCK_SIZE && k <= key
    ensures var prev := num / BLOCK_SIZE * BLOCK_SIZE + (BLOCK_SIZE - 1) - BLOCK_SIZE;
            && 0 <= prev < num && ClusterId(prev) == ClusterId(num) && NoneAbove(c, key, prev)
            && prev % BLOCK_SIZE == BLOCK_SIZE - 1
  {
    var prev := num / BLOCK_SIZE * BLOCK_SIZE - 1;
    assert prev / BLOCK_SIZE == num / BLOCK_SIZE - 1;
    BlockSplits(num);
    BlockSplits(prev);
    forall k | k in c && k <= key ensures k / BLOCK_SIZE <= prev / BLOCK_SIZE {
      assert k / BLOCK_SIZE != num / BLOCK_SIZE;
    }
  }

  /** Past maxSize, whatever might still cover the key is out of reach. */
  lemma OutOfReach<V>(c: map<nat, V>, sizeOf: V -> nat, key: nat, num: nat, maxSize: nat)
    requires NoneAbove(c, key, num) && num <= key && num % BLOCK_SIZE == BLOCK_SIZE - 1 && key - num > maxSize
    ensures forall k :: Covered(c, sizeOf, key, k) ==> !InReach(k, key, maxSize)
  {
    forall k: nat | Covered(c, sizeOf, key, k) ensures !InReach(k, key, maxSize) {
      assert k / BLOCK_SIZE <= num / BLOCK_SIZE;
      assert k / BLOCK_SIZE * BLOCK_SIZE + BLOCK_SIZE - 1 <= num;
    }
  }

  lemma ClusterScanned<V>(c: map<nat, V>, key: nat, num: nat)
    requires NoneAbove(c, key, num) && BlockId(num) == 0
    requires !exists k :: k in c && k / BLOCK_SIZE == num / BLOCK_SIZE && k <= key
    ensures NoneInCluster(c, key, num)
  {
    BlockSplits(num);
    forall k | k in c && k <= key ensures k / CLUSTER_SIZE < num / CLUSTER_SIZE {
      BlockSplits(k);
      assert k / BLOCK_SIZE < num / BLOCK_SIZE;
    }
  }

  lemma ClusterMissing<V>(m: Memory<V>, g: Shape, key: nat, num: nat)
    requires MemoryInv(m, g) && ClusterId(num) !in g.clusters && NoneAbove(Contents(m, g), key, num)
    ensures NoneInCluster(Contents(m, g), key, num)
  {
    hide MemoryInv, BlockId;
    KeysStored(m, g);
    forall k | k in Contents(m, g) && k <= key ensures k / CLUSTER_SIZE < num / CLUSTER_SIZE {
      assert ClusterId(k) != ClusterId(num);
      BlockSplits(k);
      BlockSplits(num);
    }
  }

  lemma NothingLeft<V>(c: map<nat, V>, sizeOf: V -> nat, key: nat, num: nat)
    requires NoneInCluster(c, key, num) && num < CLUSTER_SIZE
    ensures forall k :: !Covered(c, sizeOf, key, k)
  {
    assert num / CLUSTER_SIZE == 0;
  }

  lemma PreviousCluster<V>(c: map<nat, V>, key: nat, num: nat)
    requires NoneInCluster(c, key, num) && num >= CLUSTER_SIZE
    ensures var prev := num / CLUSTER_SIZE * CLUSTER_SIZE + (CLUSTER_SIZE - 1) - CLUSTER_SIZE;
            0 <= prev < num && NoneAbove(c, key, prev) && prev % BLOCK_SIZE == BLOCK_SIZE - 1
  {
    var prev := num / CLUSTER_SIZE * CLUSTER_SIZE - 1;
    forall k | k in c && k <= key ensures k / BLOCK_SIZE <= prev / BLOCK_SIZE {
      assert k <= prev;
    }
  }

  // ----- the order of Iterate -----

  ghost function Flat(xss: seq<seq<Ptr>>): seq<Ptr> {
    if xss == [] then [] else Flat(xss[..|xss| - 1]) + xss[|xss| - 1]
  }

  lemma FlatStart(xss: seq<seq<Ptr>>)
    ensures Flat(xss[..0]) == []
  {
  }

  lemma JoinThree(a: seq<Ptr>, b: seq<Ptr>, c: seq<Ptr>)
    ensures a + b + c == a + (b + c)
  {
  }

  lemma FlatNext(xss: seq<seq<Ptr>>, i: nat)
    requires i < |xss|
    ensures Flat(xss[..i + 1]) == Flat(xss[..i]) + xss[i]
  {
    assert xss[..i + 1][..i] == xss[..i];
  }

  ghost predicate PairwiseApart(xss: seq<seq<Ptr>>) {
    && (forall i :: 0 <= i < |xss| ==> NoDup(xss[i]))
    && (forall i, j, x :: 0 <= i < j < |xss| && x in xss[i] ==> x !in xss[j])
  }

  /** Flattening lists that share nothing visits every element of every list once. */
  lemma {:induction false} FlatOnce(xss: seq<seq<Ptr>>)
    requires PairwiseApart(xss)
    ensures NoDup(Flat(xss)) && forall x :: x in Flat(xss) <==> exists i :: 0 <= i < |xss| && x in xss[i]
  {
    if xss != [] {
      var n := |xss| - 1;
      var front := xss[..n];
      FlatOnce(front);
      forall x | x in Flat(front) ensures x !in xss[n] {
        var i :| 0 <= i < n && x in front[i];
        assert x in xss[i];
      }
      NoDupJoin(Flat(front), xss[n]);
      forall x ensures x in Flat(xss) <==> exists i :: 0 <= i < |xss| && x in xss[i] {
        if x in Flat(front) {
          var i :| 0 <= i < n && x in front[i];
          assert x in xss[i];
        }
        if i :| 0 <= i < |xss| && x in xss[i] {
          if i < n { assert x in front[i]; }
        }
      }
    }
  }

  ghost function ClusterVisits(g: Shape, id: nat): seq<Ptr> {
    if id in g.lists then Flat(g.lists[id]) else []
  }

  ghost function BucketVisits<V>(m: Memory<V>, g: Shape, h: nat): seq<seq<Ptr>>
    requires h < |g.chains|
  {
    var xs := g.chains[h];
    seq(|xs|, i requires 0 <= i < |xs| => if xs[i] in m.cid then ClusterVisits(g, m.cid[xs[i]]) else [])
  }

  ghost function AllVisits<V>(m: Memory<V>, g: Shape): (r: seq<seq<Ptr>>)
    ensures |r| == HASH_SIZE
  {
    seq(HASH_SIZE, h requires 0 <= h < HASH_SIZE => if h < |g.chains| then Flat(BucketVisits(m, g, h)) else [])
  }

  lemma BucketRows<V>(m: Memory<V>, g: Shape, h: nat)
    requires h < |g.chains| && h < HASH_SIZE
    ensures AllVisits(m, g)[h] == Flat(BucketVisits(m, g, h)) && |BucketVisits(m, g, h)| == |g.chains[h]|
    ensures forall i :: 0 <= i < |g.chains[h]| && g.chains[h][i] in m.cid ==>
              BucketVisits(m, g, h)[i] == ClusterVisits(g, m.cid[g.chains[h][i]])
  {
  }

  lemma BucketFacts<V>(m: Memory<V>, g: Shape, h: nat)
    requires MemoryInv(m, g) && h < HASH_SIZE
    ensures |g.chains| == |m.hashtable| == HASH_SIZE && Chain(m.cnext, m.hashtable[h], g.chains[h])
    ensures forall c :: c in g.chains[h] ==>
            c in m.cid && m.cid[c] in g.clusters && g.clusters[m.cid[c]] == c && HashInt(m.cid[c]) == h
  {
    hide HashInt, BlockInv, EntryInv, FreeInv, AllocInv;
  }

  ghost predicate KeyOf<V>(m: Memory<V>, g: Shape, e: Ptr, id: nat) {
    e in m.ekey && ClusterId(m.ekey[e]) == id && m.ekey[e] in g.where && g.where[m.ekey[e]] == e
  }

  lemma ClusterOnce<V>(m: Memory<V>, g: Shape, id: nat)
    requires MemoryInv(m, g) && id in g.clusters
    ensures NoDup(ClusterVisits(g, id)) && forall e :: e in ClusterVisits(g, id) <==> KeyOf(m, g, e, id)
  {
    hide HashInv, FreeInv, AllocInv, ClusterId, BlockId;
    var rows := g.lists[id];
    forall b | 0 <= b < |rows| ensures NoDup(rows[b]) {
      assert Chain(m.enext, m.blocks[g.clusters[id]][b], rows[b]);
    }
    forall i, j, x | 0 <= i < j < |rows| && x in rows[i] ensures x !in rows[j] {
      assert Listed(g.lists, id, i, x);
      assert Listed(g.lists, id, j, x) <==> x in rows[j];
    }
    FlatOnce(rows);
    forall e ensures e in ClusterVisits(g, id) <==> KeyOf(m, g, e, id) {
      if e in ClusterVisits(g, id) {
        var b :| 0 <= b < |rows| && e in rows[b];
        assert Listed(g.lists, id, b, e);
      }
      if KeyOf(m, g, e, id) {
        assert Listed(g.lists, id, BlockId(m.ekey[e]), e);
      }
    }
  }

  lemma BucketOnce<V>(m: Memory<V>, g: Shape, h: nat)
    requires MemoryInv(m, g) && h < HASH_SIZE && h < |g.chains|
    ensures NoDup(Flat(BucketVisits(m, g, h)))
    ensures forall e :: e in Flat(BucketVisits(m, g, h)) ==>
            e in m.ekey && HashInt(ClusterId(m.ekey[e])) == h && KeyOf(m, g, e, ClusterId(m.ekey[e]))
    ensures forall e ::
              (e in m.ekey && KeyOf(m, g, e, ClusterId(m.ekey[e])) && ClusterId(m.ekey[e]) in g.clusters
               && HashInt(ClusterId(m.ekey[e])) == h) ==> e in Flat(BucketVisits(m, g, h))
  {
    hide MemoryInv, ClusterId, HashInt, ClusterVisits, KeyOf;
    BucketFacts(m, g, h);
    var xs, rows := g.chains[h], BucketVisits(m, g, h);
    forall i | 0 <= i < |xs|
      ensures xs[i] in m.cid && m.cid[xs[i]] in g.clusters && rows[i] == ClusterVisits(g, m.cid[xs[i]])
    {
      assert xs[i] in xs;
    }
    forall i | 0 <= i < |rows| ensures NoDup(rows[i]) && forall e :: e in rows[i] <==> KeyOf(m, g, e, m.cid[xs[i]]) {
      ClusterOnce(m, g, m.cid[xs[i]]);
    }
    forall i, j, x | 0 <= i < j < |rows| && x in rows[i] ensures x !in rows[j] {
      assert xs[i] in xs && xs[j] in xs && xs[i] != xs[j];
      OneCluster(m, g, x, m.cid[xs[i]], m.cid[xs[j]]);
    }
    FlatOnce(rows);
    forall e | e in Flat(rows)
      ensures e in m.ekey && HashInt(ClusterId(m.ekey[e])) == h && KeyOf(m, g, e, ClusterId(m.ekey[e]))
    {
      var i :| 0 <= i < |rows| && e in rows[i];
      assert xs[i] in xs;
      OneCluster(m, g, e, m.cid[xs[i]], m.cid[xs[i]]);
    }
    forall e | e in m.ekey && KeyOf(m, g, e, ClusterId(m.ekey[e])) && ClusterId(m.ekey[e]) in g.clusters
               && HashInt(ClusterId(m.ekey[e])) == h
      ensures e in Flat(rows)
    {
      InBucket(m, g, ClusterId(m.ekey[e]));
      var i :| 0 <= i < |xs| && xs[i] == g.clusters[ClusterId(m.ekey[e])];
      assert e in rows[i];
    }
  }

  lemma OneCluster<V>(m: Memory<V>, g: Shape, e: Ptr, id: nat, id2: nat)
    ensures KeyOf(m, g, e, id) ==> e in m.ekey && ClusterId(m.ekey[e]) == id
    ensures KeyOf(m, g, e, id) && KeyOf(m, g, e, id2) ==> id == id2
  {
  }

  lemma InBucket<V>(m: Memory<V>, g: Shape, id: nat)
    requires MemoryInv(m, g) && id in g.clusters
    ensures HashInt(id) < |g.chains| && g.clusters[id] in g.chains[HashInt(id)] && g.clusters[id] in m.cid
    ensures m.cid[g.clusters[id]] == id
  {
    hide BlockInv, EntryInv, FreeInv, AllocInv, HashInt;
  }

  lemma VisitsOnce<V>(m: Memory<V>, g: Shape)
    requires MemoryInv(m, g)
    ensures NoDup(Flat(AllVisits(m, g)))
    ensures forall e :: e in Flat(AllVisits(m, g)) <==> e in m.ekey && m.ekey[e] in g.where && g.where[m.ekey[e]] == e
    ensures forall k :: k in g.where ==> g.where[k] in Flat(AllVisits(m, g))
    ensures Contents(m, g).Keys == g.where.Keys
  {
    hide MemoryInv, ClusterId, HashInt, BucketVisits, Flat;
    var rows := AllVisits(m, g);
    BucketFacts(m, g, 0);
    KeysStored(m, g);
    forall h | 0 <= h < HASH_SIZE
      ensures NoDup(rows[h])
      ensures (forall e :: e in rows[h] ==>
                 e in m.ekey && HashInt(ClusterId(m.ekey[e])) == h && KeyOf(m, g, e, ClusterId(m.ekey[e])))
    {
      BucketOnce(m, g, h);
    }
    FlatOnce(rows);
    forall e | e in m.ekey && m.ekey[e] in g.where && g.where[m.ekey[e]] == e ensures e in Flat(rows) {
      var h := HashInt(ClusterId(m.ekey[e]));
      BucketOnce(m, g, h);
      assert e in rows[h];
    }
  }

  lemma KeysStored<V>(m: Memory<V>, g: Shape)
    requires MemoryInv(m, g)
    ensures Contents(m, g).Keys == g.where.Keys
    ensures forall k :: k in g.where ==> g.where[k] in m.ekey && m.ekey[g.where[k]] == k && ClusterId(k) in g.clusters
  {
    hide HashInv, FreeInv, AllocInv, ClusterId, BlockId;
    forall k | k in g.where ensures ClusterId(k) in g.clusters {
      assert Listed(g.lists, ClusterId(k), BlockId(k), g.where[k]);
    }
  }

  /** e is on the list right after prev, or first when prev is NULL. */
  ghost predicate Before(xs: seq<Ptr>, prev: Ptr, e: Ptr) {
    exists i :: 0 <= i < |xs| && xs[i] == e && prev == if i == 0 then NULL else xs[i - 1]
  }

  lemma BeforeAt(xs: seq<Ptr>, i: nat)
    requires i < |xs|
    ensures Before(xs, if i == 0 then NULL else xs[i - 1], xs[i])
  {
  }

  /** The zeroed block array of a new cluster, and what it stands for. */
  function NoHeads(): (r: seq<Ptr>)
    ensures |r| == CLUSTER_BLOCKS && forall i :: 0 <= i < CLUSTER_BLOCKS ==> r[i] == NULL
  {
    seq(CLUSTER_BLOCKS, _ => NULL)
  }

  ghost function NoLists(): (r: seq<seq<Ptr>>)
    ensures |r| == CLUSTER_BLOCKS && forall i :: 0 <= i < CLUSTER_BLOCKS ==> r[i] == []
  {
    seq(CLUSTER_BLOCKS, _ => [])
  }

  // ----- looking things up -----

  /** One chain of the hash table: its clusters, and the only place a cluster id can be. */
  lemma Bucket(table: seq<Ptr>, cnext: map<Ptr, Ptr>, cid: map<Ptr, nat>, chains: seq<seq<Ptr>>,
               clusters: map<nat, Ptr>, id: nat)
    requires HashInv(table, cnext, cid, chains, clusters)
    ensures var h := HashInt(id);
            && |table| == |chains| == HASH_SIZE && Chain(cnext, table[h], chains[h])
            && (forall c :: c in chains[h] ==> c in cid && cid[c] in clusters && clusters[cid[c]] == c)
            && (id in clusters ==> clusters[id] in chains[h] && cid[clusters[id]] == id)
  {
    hide HashInt;
  }

  lemma NoCluster<V>(m: Memory<V>, g: Shape, key: nat)
    requires MemoryInv(m, g) && ClusterId(key) !in g.clusters
    ensures key !in g.where && key !in Contents(m, g)
  {
    assert key in g.where ==> Listed(g.lists, ClusterId(key), BlockId(key), g.where[key]);
  }

  lemma ListFacts<V>(m: Memory<V>, g: Shape, id: nat, b: nat)
    requires MemoryInv(m, g) && id in g.clusters && b < CLUSTER_BLOCKS
    ensures id in g.lists && |g.lists[id]| == CLUSTER_BLOCKS && g.clusters[id] in m.blocks
    ensures |m.blocks[g.clusters[id]]| == CLUSTER_BLOCKS && Chain(m.enext, m.blocks[g.clusters[id]][b], g.lists[id][b])
    ensures forall k :: k in g.where ==> g.where[k] in m.evalue
    ensures Contents(m, g).Keys == g.where.Keys
    ensures forall k :: k in g.where ==> Contents(m, g)[k] == m.evalue[g.where[k]]
  {
  }

  lemma ValuesApart(ekey: map<Ptr, nat>, lists: Lists, where: map<nat, Ptr>)
    requires EntryInv(ekey, lists, where)
    ensures forall j, k :: j in where && k in where && where[j] == where[k] ==> j == k
  {
  }

  lemma FreeFacts<V>(m: Memory<V>, g: Shape)
    requires MemoryInv(m, g)
    ensures m.free == NULL <==> g.freeChain == []
    ensures m.free != NULL ==> m.free in m.enext
  {
  }

  // ----- how each update changes the shape -----

  ghost function ClusterMemory<V>(m: Memory<V>, id: nat): Memory<V>
    requires HashInt(id) < |m.hashtable|
  {
    var c, h := m.top, HashInt(id);
    m.(top := m.top + 1, cid := m.cid[c := id], cnext := m.cnext[c := m.hashtable[h]],
    blocks := m.blocks[c := NoHeads()], hashtable := m.hashtable[h := c])
  }

  lemma WithCluster<V>(m: Memory<V>, g: Shape, id: nat) returns (g2: Shape)
    requires MemoryInv(m, g) && id !in g.clusters
    ensures |m.hashtable| == HASH_SIZE && m.top > 0
    ensures MemoryInv(ClusterMemory(m, id), g2) && Contents(ClusterMemory(m, id), g2) == Contents(m, g)
    ensures g2.where == g.where && g2.clusters == g.clusters[id := m.top]
  {
    hide HashInv, BlockInv, EntryInv, FreeInv, AllocInv, HashInt, NoHeads, NoLists;
    var c, h, none := m.top, HashInt(id), NoLists();
    Bucket(m.hashtable, m.cnext, m.cid, g.chains, g.clusters, id);
    AllocCluster(m.top, m.enext, m.cnext, m.ekey, m.cid, m.hashtable[h], id);
    ClusterFacts(m.hashtable, m.cnext, m.cid, g.chains, g.clusters, c);
    BlockKeys(m.blocks, g.clusters, m.enext, g.lists);
    NewCluster(m.hashtable, m.cnext, m.cid, g.chains, g.clusters, id, c);
    NewBlocks(m.blocks, g.clusters, m.enext, g.lists, id, c, NoHeads(), none);
    NewEntries(m.ekey, g.lists, g.where, m.enext, m.free, g.freeChain, id, none);
    g2 := g.(chains := g.chains[h := [c] + g.chains[h]], clusters := g.clusters[id := c], lists := g.lists[id := none]);
  }

  lemma AllocCluster(top: Ptr, enext: map<Ptr, Ptr>, cnext: map<Ptr, Ptr>, ekey: map<Ptr, nat>, cid: map<Ptr, nat>,
                     nxt: Ptr, id: nat)
    requires AllocInv(top, enext, cnext, ekey, cid)
    ensures top > 0 && top !in cnext && top !in cid
    ensures AllocInv(top + 1, enext, cnext[top := nxt], ekey, cid[top := id])
  {
  }

  lemma ClusterFacts(table: seq<Ptr>, cnext: map<Ptr, Ptr>, cid: map<Ptr, nat>, chains: seq<seq<Ptr>>,
                     clusters: map<nat, Ptr>, c: Ptr)
    requires HashInv(table, cnext, cid, chains, clusters)
    ensures c !in cid ==> forall j :: j in clusters ==> clusters[j] != c
    ensures forall i, j :: i in clusters && j in clusters && i != j ==> clusters[i] != clusters[j]
  {
  }

  lemma BlockKeys(blocks: map<Ptr, seq<Ptr>>, clusters: map<nat, Ptr>, enext: map<Ptr, Ptr>, lists: Lists)
    requires BlockInv(blocks, clusters, enext, lists)
    ensures lists.Keys == clusters.Keys
  {
  }

  /** The links of listed entries are set, so they survive changes elsewhere. */
  lemma ListedLinks(blocks: map<Ptr, seq<Ptr>>, clusters: map<nat, Ptr>, enext: map<Ptr, Ptr>, lists: Lists)
    requires BlockInv(blocks, clusters, enext, lists)
    ensures forall id, b, e :: Listed(lists, id, b, e) ==> e in enext && e != NULL
  {
    forall id: nat, b: nat, e: Ptr | Listed(lists, id, b, e) ensures e in enext && e != NULL {
      assert Chain(enext, blocks[clusters[id]][b], lists[id][b]);
    }
  }

  ghost function EntryMemory<V>(m: Memory<V>, c: Ptr, b: nat, key: nat, value: V): Memory<V>
    requires m.free in m.enext && c in m.blocks && b < |m.blocks[c]|
  {
    var e := m.free;
    m.(free := m.enext[e], ekey := m.ekey[e := key], evalue := m.evalue[e := value],
    enext := m.enext[e := m.blocks[c][b]], blocks := m.blocks[c := SetAt(m.blocks[c], b, e)])
  }

  lemma WithEntry<V>(m: Memory<V>, g: Shape, key: nat, value: V) returns (g2: Shape)
    requires MemoryInv(m, g) && key !in g.where && ClusterId(key) in g.clusters && m.free != NULL
    ensures m.free in m.enext && g.clusters[ClusterId(key)] in m.blocks
    ensures BlockId(key) < |m.blocks[g.clusters[ClusterId(key)]]|
    ensures var m2 := EntryMemory(m, g.clusters[ClusterId(key)], BlockId(key), key, value);
            MemoryInv(m2, g2) && Contents(m2, g2) == Contents(m, g)[key := value]
  {
    hide HashInv, BlockInv, EntryInv, FreeInv, AllocInv, ClusterId, BlockId, Chain;
    var id, b, e := ClusterId(key), BlockId(key), m.free;
    var c := g.clusters[id];
    ListFacts(m, g, id, b);
    TakeFree(m.enext, m.free, g.freeChain, g.lists, m.blocks[c][b]);
    var list, enext2 := [e] + g.lists[id][b], m.enext[e := m.blocks[c][b]];
    assert e !in g.lists[id][b] by { assert Listed(g.lists, id, b, e) <==> e in g.lists[id][b]; }
    PushChain(m.enext, m.blocks[c][b], g.lists[id][b], e);
    ListedLinks(m.blocks, g.clusters, m.enext, g.lists);
    ClusterFacts(m.hashtable, m.cnext, m.cid, g.chains, g.clusters, NULL);
    SetBlock(m.blocks, g.clusters, m.enext, enext2, g.lists, id, b, e, list);
    EntryAdded(m.ekey, g.lists, g.where, e, key);
    ListGrows(g.lists, id, b, e, enext2, m.enext[e], g.freeChain[1..]);
    AllocEntry(m.top, m.enext, m.cnext, m.ekey, m.cid, e, m.blocks[c][b], key);
    NotStored(m.ekey, g.lists, g.where, e);
    g2 := g.(lists := g.lists[id := g.lists[id][b := list]], where := g.where[key := e], freeChain := g.freeChain[1..]);
    var m2 := EntryMemory(m, c, b, key, value);
    assert Contents(m2, g2) == Contents(m, g)[key := value];
  }

  /** The first recycled entry can be relinked without harm to the rest of the free list. */
  lemma TakeFree(enext: map<Ptr, Ptr>, free: Ptr, freeChain: seq<Ptr>, lists: Lists, link: Ptr)
    requires FreeInv(enext, free, freeChain, lists) && free != NULL
    ensures freeChain != [] && free in enext && (forall id, b, e :: Listed(lists, id, b, e) ==> e != free)
    ensures FreeInv(enext[free := link], enext[free], freeChain[1..], lists) && free !in freeChain[1..]
  {
    ChainStep(enext, free, freeChain);
    ChainFrame(enext, enext[free := link], enext[free], freeChain[1..]);
    assert free in freeChain;
    forall e | e in freeChain[1..] ensures e in freeChain {}
  }

  lemma ListGrows(lists: Lists, id: nat, b: nat, e: Ptr, enext: map<Ptr, Ptr>, free: Ptr, freeChain: seq<Ptr>)
    requires FreeInv(enext, free, freeChain, lists) && e !in freeChain && id in lists && b < |lists[id]|
    ensures FreeInv(enext, free, freeChain, lists[id := lists[id][b := [e] + lists[id][b]]])
  {
    var lists2 := lists[id := lists[id][b := [e] + lists[id][b]]];
    forall j, k, x | Listed(lists2, j, k, x) ensures x !in freeChain {
      if x != e { assert Listed(lists, j, k, x); }
    }
  }

  lemma AllocEntry(top: Ptr, enext: map<Ptr, Ptr>, cnext: map<Ptr, Ptr>, ekey: map<Ptr, nat>, cid: map<Ptr, nat>,
                   e: Ptr, nxt: Ptr, key: nat)
    requires AllocInv(top, enext, cnext, ekey, cid) && e in enext
    ensures AllocInv(top, enext[e := nxt], cnext, ekey[e := key], cid)
  {
  }

  lemma NotStored(ekey: map<Ptr, nat>, lists: Lists, where: map<nat, Ptr>, e: Ptr)
    requires EntryInv(ekey, lists, where) && forall id, b, x :: Listed(lists, id, b, x) ==> x != e
    ensures forall k :: k in where ==> where[k] != e
  {
  }

  lemma WithBatch<V>(m: Memory<V>, g: Shape, next: map<Ptr, Ptr>) returns (g2: Shape)
    requires MemoryInv(m, g) && m.free == NULL
    requires forall p :: p in next <==> p in m.enext || m.top <= p < m.top + ALLOC_COUNT
    requires forall p :: p in m.enext ==> next[p] == m.enext[p]
    requires forall p :: m.top <= p < m.top + ALLOC_COUNT - 1 ==> next[p] == p + 1
    requires next[m.top + ALLOC_COUNT - 1] == NULL
    ensures var m2 := m.(enext := next, free := m.top, top := m.top + ALLOC_COUNT);
            MemoryInv(m2, g2) && Contents(m2, g2) == Contents(m, g)
    ensures g2 == g.(freeChain := g2.freeChain) && g2.freeChain != []
  {
    hide HashInv, BlockInv, EntryInv;
    var batch := Batch(m.top, next);
    ListedLinks(m.blocks, g.clusters, m.enext, g.lists);
    BlocksKept(m.blocks, g.clusters, m.enext, next, g.lists);
    g2 := g.(freeChain := batch);
  }

  /** The pointers of a new batch of entries, linked in order. */
  lemma Batch(base: Ptr, next: map<Ptr, Ptr>) returns (batch: seq<Ptr>)
    requires base > 0 && forall p :: base <= p < base + ALLOC_COUNT ==> p in next
    requires forall p :: base <= p < base + ALLOC_COUNT - 1 ==> next[p] == p + 1
    requires next[base + ALLOC_COUNT - 1] == NULL
    ensures |batch| == ALLOC_COUNT && (forall x :: x in batch ==> base <= x) && Chain(next, base, batch)
  {
    batch := seq(ALLOC_COUNT, j requires 0 <= j => base + j);
    forall j | 0 <= j < ALLOC_COUNT ensures batch[j] != NULL && batch[j] in next && next[batch[j]] == At(batch, j + 1) {
      assert batch[j] == base + j;
    }
  }

  lemma BlocksKept(blocks: map<Ptr, seq<Ptr>>, clusters: map<nat, Ptr>, enext: map<Ptr, Ptr>, enext2: map<Ptr, Ptr>,
                   lists: Lists)
    requires BlockInv(blocks, clusters, enext, lists)
    requires forall id, b, e :: Listed(lists, id, b, e) ==> e in enext && e in enext2 && enext2[e] == enext[e]
    ensures BlockInv(blocks, clusters, enext2, lists)
  {
    forall id, b | id in clusters && 0 <= b < CLUSTER_BLOCKS
      ensures Chain(enext2, blocks[clusters[id]][b], lists[id][b])
    {
      assert Chain(enext, blocks[clusters[id]][b], lists[id][b]);
      forall e | e in lists[id][b] ensures e in enext && e in enext2 && enext2[e] == enext[e] {
        assert Listed(lists, id, b, e);
      }
      ChainFrame(enext, enext2, blocks[clusters[id]][b], lists[id][b]);
    }
  }

  /** Memory after unlinking e, which follows prev on block b of cluster c. */
  ghost function UnlinkedMemory<V>(m: Memory<V>, c: Ptr, b: nat, prev: Ptr, e: Ptr): Memory<V>
    requires e in m.enext && c in m.blocks && b < |m.blocks[c]|
  {
    if prev == NULL then
      m.(enext := m.enext[e := m.free], blocks := m.blocks[c := SetAt(m.blocks[c], b, m.enext[e])], free := e)
    else
      m.(enext := m.enext[prev := m.enext[e]][e := m.free], free := e)
  }

  /** Unlinking the first object of a chain. */
  lemma UnlinkFirst(next: map<Ptr, Ptr>, head: Ptr, xs: seq<Ptr>, link: Ptr)
    requires Chain(next, head, xs) && xs != []
    ensures xs[0] in next && Chain(next[xs[0] := link], next[xs[0]], RemoveAt(xs, 0))
  {
    ChainStep(next, head, xs);
    assert RemoveAt(xs, 0) == xs[1..];
    ChainFrame(next, next[xs[0] := link], next[xs[0]], xs[1..]);
  }

  /** Unlinking a later object: the one before it takes over its link. */
  lemma UnlinkLater(next: map<Ptr, Ptr>, head: Ptr, xs: seq<Ptr>, i: nat, link: Ptr)
    requires Chain(next, head, xs) && 0 < i < |xs|
    ensures xs[i] in next && Chain(next[xs[i - 1] := next[xs[i]]][xs[i] := link], head, RemoveAt(xs, i))
  {
    var ys := RemoveAt(xs, i);
    var next2 := next[xs[i - 1] := next[xs[i]]][xs[i] := link];
    forall j | 0 <= j < |ys| ensures ys[j] in next2 && ys[j] != NULL && next2[ys[j]] == At(ys, j + 1) {
      RemoveAtIndex(xs, i, j);
      RemoveAtIndex(xs, i, j + 1);
      var k := if j < i then j else j + 1;
      assert xs[k] != xs[i] && (k != i - 1 ==> xs[k] != xs[i - 1]);
    }
    forall j, k | 0 <= j < k < |ys| ensures ys[j] != ys[k] {
      RemoveAtIndex(xs, i, j);
      RemoveAtIndex(xs, i, k);
    }
  }

  lemma RemoveAtIndex(xs: seq<Ptr>, i: nat, j: nat)
    requires i < |xs|
    ensures |RemoveAt(xs, i)| == |xs| - 1 && At(RemoveAt(xs, i), j) == At(xs, if j < i then j else j + 1)
    ensures j < |xs| - 1 ==> RemoveAt(xs, i)[j] == xs[if j < i then j else j + 1]
  {
  }

  lemma WithoutEntry<V>(m: Memory<V>, g: Shape, key: nat, prev: Ptr, e: Ptr) returns (g2: Shape)
    requires MemoryInv(m, g) && key in g.where && g.where[key] == e && ClusterId(key) in g.clusters
    requires ClusterId(key) in g.lists && BlockId(key) < |g.lists[ClusterId(key)]|
    requires Before(g.lists[ClusterId(key)][BlockId(key)], prev, e)
    ensures e in m.enext && g.clusters[ClusterId(key)] in m.blocks
    ensures BlockId(key) < |m.blocks[g.clusters[ClusterId(key)]]|
    ensures var m2 := UnlinkedMemory(m, g.clusters[ClusterId(key)], BlockId(key), prev, e);
            MemoryInv(m2, g2) && Contents(m2, g2) == Contents(m, g) - {key}
  {
    hide HashInv, BlockInv, EntryInv, FreeInv, AllocInv, ClusterId, BlockId, Chain, UnlinkedMemory;
    var id, b := ClusterId(key), BlockId(key);
    var c, xs := g.clusters[id], g.lists[id][b];
    ListFacts(m, g, id, b);
    ChainNoDup(m.enext, m.blocks[c][b], xs);
    var i :| 0 <= i < |xs| && xs[i] == e && prev == if i == 0 then NULL else xs[i - 1];
    var m2, ys := UnlinkedMemory(m, c, b, prev, e), RemoveAt(xs, i);
    UnlinkedBlocks(m, g, id, b, prev, e, i);
    EntryRemoved(m.ekey, g.lists, g.where, key, i);
    g2 := g.(lists := g.lists[id := g.lists[id][b := ys]], where := g.where - {key}, freeChain := [e] + g.freeChain);
    forall j: nat, k: nat, x: Ptr | Listed(g2.lists, j, k, x) ensures Listed(g.lists, j, k, x) && x != e {
      assert Listed(g.lists[id := g.lists[id][b := RemoveAt(g.lists[id][b], i)]], j, k, x);
    }
    UnlinkedLinks(m, c, b, prev, e);
    Recycled(m.enext, m2.enext, m.free, g.freeChain, g.lists, g2.lists, prev, e, id, b);
    AllocUnlink(m.top, m.enext, m2.enext, m.cnext, m.ekey, m.cid);
  }

  /** What unlinking writes, and what it leaves alone. */
  lemma UnlinkedLinks<V>(m: Memory<V>, c: Ptr, b: nat, prev: Ptr, e: Ptr)
    requires e in m.enext && c in m.blocks && b < |m.blocks[c]| && (prev != NULL ==> prev in m.enext)
    ensures var m2 := UnlinkedMemory(m, c, b, prev, e);
            && m2.enext.Keys == m.enext.Keys && m2.enext[e] == m.free
            && (forall p :: p in m.enext && p != e && (prev == NULL || p != prev) ==> m2.enext[p] == m.enext[p])
            && m2 == m.(enext := m2.enext, blocks := m2.blocks, free := e)
  {
  }

  /** The block's list without its i-th entry; every other list keeps its links. */
  lemma UnlinkedBlocks<V>(m: Memory<V>, g: Shape, id: nat, b: nat, prev: Ptr, e: Ptr, i: nat)
    requires MemoryInv(m, g) && id in g.clusters && id in g.lists && b < CLUSTER_BLOCKS && b < |g.lists[id]|
    requires i < |g.lists[id][b]| && g.lists[id][b][i] == e && prev == if i == 0 then NULL else g.lists[id][b][i - 1]
    ensures e in m.enext && e != NULL && g.clusters[id] in m.blocks && b < |m.blocks[g.clusters[id]]|
    ensures Listed(g.lists, id, b, e) && (prev != NULL ==> prev in m.enext && Listed(g.lists, id, b, prev))
    ensures var m2 := UnlinkedMemory(m, g.clusters[id], b, prev, e);
            BlockInv(m2.blocks, g.clusters, m2.enext, g.lists[id := g.lists[id][b := RemoveAt(g.lists[id][b], i)]])
  {
    hide HashInv, BlockInv, EntryInv, FreeInv, AllocInv, Chain;
    var c, xs := g.clusters[id], g.lists[id][b];
    ListFacts(m, g, id, b);
    ChainNoDup(m.enext, m.blocks[c][b], xs);
    if i == 0 {
      UnlinkFirst(m.enext, m.blocks[c][b], xs, m.free);
    } else {
      UnlinkLater(m.enext, m.blocks[c][b], xs, i, m.free);
    }
    var m2 := UnlinkedMemory(m, c, b, prev, e);
    var head, ys := if i == 0 then m.enext[e] else m.blocks[c][b], RemoveAt(xs, i);
    ListedLinks(m.blocks, g.clusters, m.enext, g.lists);
    ListsApart(m.ekey, g.lists, g.where, id, b, prev, e);
    ClusterFacts(m.hashtable, m.cnext, m.cid, g.chains, g.clusters, NULL);
    SetBlock(m.blocks, g.clusters, m.enext, m2.enext, g.lists, id, b, head, ys);
    assert i > 0 ==> SetAt(m.blocks[c], b, head) == m.blocks[c];
    assert m2.blocks == m.blocks[c := SetAt(m.blocks[c], b, head)];
  }

  lemma ChainNoDup(next: map<Ptr, Ptr>, head: Ptr, xs: seq<Ptr>)
    requires Chain(next, head, xs)
    ensures NoDup(xs) && forall i :: 0 <= i < |xs| ==> xs[i] != NULL && xs[i] in next
  {
  }

  /** Entries of other blocks are neither the removed entry nor the one before it. */
  lemma ListsApart(ekey: map<Ptr, nat>, lists: Lists, where: map<nat, Ptr>, id: nat, b: nat, prev: Ptr, e: Ptr)
    requires EntryInv(ekey, lists, where) && Listed(lists, id, b, e) && (prev != NULL ==> Listed(lists, id, b, prev))
    ensures forall j, k, x :: Listed(lists, j, k, x) && (j != id || k != b) ==> x != e && (prev != NULL ==> x != prev)
  {
  }

  /** The removed entry goes on the free list, whose links did not change. */
  lemma Recycled(enext: map<Ptr, Ptr>, enext2: map<Ptr, Ptr>, free: Ptr, freeChain: seq<Ptr>, lists: Lists,
                 lists2: Lists,
                 prev: Ptr, e: Ptr, id: nat, b: nat)
    requires FreeInv(enext, free, freeChain, lists) && e != NULL && Listed(lists, id, b, e)
    requires prev != NULL ==> Listed(lists, id, b, prev)
    requires enext2.Keys == enext.Keys + {e} && enext2[e] == free
    requires forall p :: p in enext && p != e && p != prev ==> enext2[p] == enext[p]
    requires prev == NULL ==> forall p :: p in enext && p != e ==> enext2[p] == enext[p]
    requires forall j, k, x :: Listed(lists2, j, k, x) ==> Listed(lists, j, k, x) && x != e
    ensures FreeInv(enext2, e, [e] + freeChain, lists2)
  {
    assert e !in freeChain && (prev != NULL ==> prev !in freeChain);
    forall x | x in freeChain ensures x in enext2 && x in enext && enext2[x] == enext[x] { }
    ChainFrame(enext, enext2, free, freeChain);
    PushChain(enext2, free, freeChain, e);
    assert enext2[e := free] == enext2;
  }

  lemma AllocUnlink(top: Ptr, enext: map<Ptr, Ptr>, enext2: map<Ptr, Ptr>, cnext: map<Ptr, Ptr>, ekey: map<Ptr, nat>,
                    cid: map<Ptr, nat>)
    requires AllocInv(top, enext, cnext, ekey, cid) && enext2.Keys == enext.Keys
    ensures AllocInv(top, enext2, cnext, ekey, cid)
  {
  }
}
