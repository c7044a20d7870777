/** The heap profiler's address map: a hash table of clusters, each an array of blocks, each a
    linked list of entries, with removed entries kept on a free list. Pointers are numbers, 0 is
    NULL, and every struct field is a map from pointers, so that relinking is visible. */
module AddressMap {
  import opened Basics
  import opened ObjectChains

  type Ptr = Addr

  const BLOCK_SIZE := 128
  const CLUSTER_BLOCKS := 8192
  const CLUSTER_SIZE := 1048576
  const HASH_SIZE := 4096
  const ALLOC_COUNT := 64
  const WORD := 0x1_0000_0000_0000_0000

  /** The top 12 of the bottom 32 bits of a multiplicative hash. */
  function HashInt(x: nat): (h: nat)
    ensures h < HASH_SIZE
  {
    (((x % 0x1_0000_0000) * 2654435769) % 0x1_0000_0000) / 0x10_0000
  }

  function ClusterId(address: nat): nat { address / CLUSTER_SIZE }

  function BlockId(address: nat): (b: nat)
    ensures b < CLUSTER_BLOCKS
  {
    (address / BLOCK_SIZE) % CLUSTER_BLOCKS
  }

  lemma BlockSplits(address: nat)
    ensures ClusterId(address) == address / BLOCK_SIZE / CLUSTER_BLOCKS
    ensures BlockId(address) == address / BLOCK_SIZE % CLUSTER_BLOCKS
  {
  }

  // ----- the representation -----

  /** Each chain of the hash table holds exactly the clusters whose id hashes to it, and an id
      has one cluster. `clusters` says which. */
  ghost predicate HashInv(table: seq<Ptr>, cnext: map<Ptr, Ptr>, cid: map<Ptr, nat>, chains: seq<seq<Ptr>>,
                          clusters: map<nat, Ptr>) {
    && |table| == |chains| == HASH_SIZE
    && (forall h :: 0 <= h < HASH_SIZE ==> Chain(cnext, table[h], chains[h]))
    && (forall h, c :: 0 <= h < HASH_SIZE && c in chains[h] ==>
          c in cid && HashInt(cid[c]) == h && cid[c] in clusters && clusters[cid[c]] == c)
    && (forall id :: id in clusters ==>
       clusters[id] in cid && cid[clusters[id]] == id && clusters[id] in chains[HashInt(id)])
  }

  /** The entries of every block of every cluster, by cluster id and block number. */
  type Lists = map<nat, seq<seq<Ptr>>>

  /** Each block of each cluster heads the list of its entries. */
  ghost predicate BlockInv(blocks: map<Ptr, seq<Ptr>>, clusters: map<nat, Ptr>, enext: map<Ptr, Ptr>, lists: Lists) {
    && lists.Keys == clusters.Keys
    && (forall id :: id in clusters ==>
          clusters[id] in blocks && |blocks[clusters[id]]| == CLUSTER_BLOCKS && |lists[id]| == CLUSTER_BLOCKS)
    && (forall id, b :: id in clusters && 0 <= b < CLUSTER_BLOCKS ==>
       Chain(enext, blocks[clusters[id]][b], lists[id][b]))
  }

  /** e is on the list of block b of cluster id. */
  ghost predicate Listed(lists: Lists, id: nat, b: nat, e: Ptr) {
    id in lists && b < |lists[id]| && e in lists[id][b]
  }

  /** An entry is on the list of its key's block, and a key has one entry. `where` says which. */
  ghost predicate EntryInv(ekey: map<Ptr, nat>, lists: Lists, where: map<nat, Ptr>) {
    && (forall id, b, e :: Listed(lists, id, b, e) ==>
          e in ekey && ClusterId(ekey[e]) == id && BlockId(ekey[e]) == b && ekey[e] in where && where[ekey[e]] == e)
    && (forall k :: k in where ==>
       where[k] in ekey && ekey[where[k]] == k && Listed(lists, ClusterId(k), BlockId(k), where[k]))
  }

  /** Recycled entries are on no block's list. */
  ghost predicate FreeInv(enext: map<Ptr, Ptr>, free: Ptr, freeChain: seq<Ptr>, lists: Lists) {
    && Chain(enext, free, freeChain)
    && forall id, b, e :: Listed(lists, id, b, e) ==> e !in freeChain
  }

  /** Pointers handed out so far are below `top`. */
  ghost predicate AllocInv(top: Ptr, enext: map<Ptr, Ptr>, cnext: map<Ptr, Ptr>, ekey: map<Ptr, nat>,
                           cid: map<Ptr, nat>) {
    && top > 0 && (forall p :: p in enext ==> p < top) && (forall p :: p in cnext ==> p < top)
    && (forall p :: p in ekey ==> p in enext) && (forall p :: p in cid ==> p < top)
  }

  // ----- what single updates do -----

  lemma NewCluster(table: seq<Ptr>, cnext: map<Ptr, Ptr>, cid: map<Ptr, nat>, chains: seq<seq<Ptr>>,
                   clusters: map<nat, Ptr>, id: nat, c: Ptr)
    requires HashInv(table, cnext, cid, chains, clusters) && id !in clusters && c > 0 && c !in cnext && c !in cid
    ensures var h := HashInt(id);
            HashInv(table[h := c], cnext[c := table[h]], cid[c := id], chains[h := [c] + chains[h]], clusters[id := c])
  {
    hide HashInt;
    var h := HashInt(id);
    var table2, cnext2, chains2 := table[h := c], cnext[c := table[h]], chains[h := [c] + chains[h]];
    var cid2, clusters2 := cid[c := id], clusters[id := c];
    assert c !in chains[h];
    PushChain(cnext, table[h], chains[h], c);
    forall g | 0 <= g < HASH_SIZE ensures Chain(cnext2, table2[g], chains2[g]) {
      if g != h {
        assert Chain(cnext, table[g], chains[g]);
        ChainFrame(cnext, cnext2, table[g], chains[g]);
      }
    }
    forall g, d | 0 <= g < HASH_SIZE && d in chains2[g]
      ensures d in cid2 && HashInt(cid2[d]) == g && cid2[d] in clusters2 && clusters2[cid2[d]] == d
    {
      if d != c { assert d in chains[g]; }
    }
    forall j | j in clusters2
      ensures clusters2[j] in cid2 && cid2[clusters2[j]] == j && clusters2[j] in chains2[HashInt(j)]
    {
      if j == id { assert chains2[h][0] == c; } else { InTail(chains[HashInt(j)], c, clusters[j]); }
    }
  }

  lemma InTail<T>(xs: seq<T>, a: T, x: T)
    requires x in xs
    ensures x in [a] + xs
  {
  }

  lemma NewBlocks(blocks: map<Ptr, seq<Ptr>>, clusters: map<nat, Ptr>, enext: map<Ptr, Ptr>, lists: Lists, id: nat,
                  c: Ptr,
                  zeros: seq<Ptr>, none: seq<seq<Ptr>>)
    requires BlockInv(blocks, clusters, enext, lists) && id !in clusters
    requires (forall j :: j in clusters ==> clusters[j] != c)
    requires |zeros| == CLUSTER_BLOCKS && forall i :: 0 <= i < CLUSTER_BLOCKS ==> zeros[i] == NULL
    requires |none| == CLUSTER_BLOCKS && forall i :: 0 <= i < CLUSTER_BLOCKS ==> none[i] == []
    ensures BlockInv(blocks[c := zeros], clusters[id := c], enext, lists[id := none])
  {
    var lists2, clusters2, blocks2 := lists[id := none], clusters[id := c], blocks[c := zeros];
    forall j, b | j in clusters2 && 0 <= b < CLUSTER_BLOCKS
      ensures Chain(enext, blocks2[clusters2[j]][b], lists2[j][b])
    {
      if j != id { assert Chain(enext, blocks[clusters[j]][b], lists[j][b]); }
    }
  }

  lemma NewEntries(ekey: map<Ptr, nat>, lists: Lists, where: map<nat, Ptr>, enext: map<Ptr, Ptr>, free: Ptr,
                   freeChain: seq<Ptr>, id: nat, none: seq<seq<Ptr>>)
    requires EntryInv(ekey, lists, where) && FreeInv(enext, free, freeChain, lists) && id !in lists
    requires forall i :: 0 <= i < |none| ==> none[i] == []
    ensures EntryInv(ekey, lists[id := none], where) && FreeInv(enext, free, freeChain, lists[id := none])
  {
    var lists2 := lists[id := none];
    forall j, b, e | Listed(lists2, j, b, e) ensures Listed(lists, j, b, e) {}
    forall k | k in where ensures Listed(lists2, ClusterId(k), BlockId(k), where[k]) {
      assert Listed(lists, ClusterId(k), BlockId(k), where[k]);
    }
  }

  function SetAt<T>(xs: seq<T>, i: nat, x: T): seq<T>
    requires i < |xs|
  {
    xs[i := x]
  }

  /** One block's list changes to `list`, headed by `head`; links change only where allowed. */
  lemma SetBlock(blocks: map<Ptr, seq<Ptr>>, clusters: map<nat, Ptr>, enext: map<Ptr, Ptr>, enext2: map<Ptr, Ptr>,
                 lists: Lists,
                 id: nat, b: nat, head: Ptr, list: seq<Ptr>)
    requires BlockInv(blocks, clusters, enext, lists) && id in clusters && b < CLUSTER_BLOCKS
    requires forall j :: j in clusters && j != id ==> clusters[j] != clusters[id]
    requires Chain(enext2, head, list)
    requires forall j, k, e :: Listed(lists, j, k, e) && (j != id || k != b) ==>
             e in enext && e in enext2 && enext2[e] == enext[e]
    ensures var c := clusters[id];
            BlockInv(blocks[c := SetAt(blocks[c], b, head)], clusters, enext2, lists[id := lists[id][b := list]])
  {
    var c := clusters[id];
    var blocks2, lists2 := blocks[c := SetAt(blocks[c], b, head)], lists[id := lists[id][b := list]];
    forall j, k | j in clusters && 0 <= k < CLUSTER_BLOCKS
      ensures Chain(enext2, blocks2[clusters[j]][k], lists2[j][k])
    {
      if j != id || k != b {
        assert Chain(enext, blocks[clusters[j]][k], lists[j][k]);
        forall e | e in lists[j][k] ensures e in enext2 && e in enext && enext2[e] == enext[e] {
          assert Listed(lists, j, k, e);
        }
        ChainFrame(enext, enext2, blocks[clusters[j]][k], lists[j][k]);
      }
    }
  }

  /** A recycled entry becomes the first of its key's list. */
  lemma EntryAdded(ekey: map<Ptr, nat>, lists: Lists, where: map<nat, Ptr>, e: Ptr, key: nat)
    requires EntryInv(ekey, lists, where) && key !in where && ClusterId(key) in lists
    requires BlockId(key) < |lists[ClusterId(key)]|
    requires forall id, b, x :: Listed(lists, id, b, x) ==> x != e
    ensures var id, b := ClusterId(key), BlockId(key);
            EntryInv(ekey[e := key], lists[id := lists[id][b := [e] + lists[id][b]]], where[key := e])
  {
    var id, b := ClusterId(key), BlockId(key);
    var lists2, ekey2, where2 := lists[id := lists[id][b := [e] + lists[id][b]]], ekey[e := key], where[key := e];
    forall j, k, x | Listed(lists2, j, k, x)
      ensures x in ekey2 && ClusterId(ekey2[x]) == j && BlockId(ekey2[x]) == k && ekey2[x] in where2
      ensures where2[ekey2[x]] == x
    {
      assert j != id || k != b ==> Listed(lists, j, k, x);
      if x != e { assert Listed(lists, j, k, x); }
    }
    forall k | k in where2
      ensures where2[k] in ekey2 && ekey2[where2[k]] == k && Listed(lists2, ClusterId(k), BlockId(k), where2[k])
    {
      if k == key {
        assert lists2[id][b][0] == e;
      } else {
        assert Listed(lists, ClusterId(k), BlockId(k), where[k]);
        if ClusterId(k) == id && BlockId(k) == b { InTail(lists[id][b], e, where[k]); }
      }
    }
  }

  function RemoveAt<T>(xs: seq<T>, i: nat): seq<T>
    requires i < |xs|
  {
    xs[..i] + xs[i + 1..]
  }

  lemma EntryRemoved(ekey: map<Ptr, nat>, lists: Lists, where: map<nat, Ptr>, key: nat, i: nat)
    requires EntryInv(ekey, lists, where) && key in where
    requires var id, b := ClusterId(key), BlockId(key);
             && id in lists && b < |lists[id]| && i < |lists[id][b]| && lists[id][b][i] == where[key]
             && NoDup(lists[id][b])
    ensures var id, b := ClusterId(key), BlockId(key);
            && EntryInv(ekey, lists[id := lists[id][b := RemoveAt(lists[id][b], i)]], where - {key})
            && forall j, k, x :: Listed(lists[id := lists[id][b := RemoveAt(lists[id][b], i)]], j, k, x) ==>
               Listed(lists, j, k, x) && x != where[key]
  {
    var id, b := ClusterId(key), BlockId(key);
    var xs := lists[id][b];
    var ys := RemoveAt(xs, i);
    var lists2, where2 := lists[id := lists[id][b := ys]], where - {key};
    forall x ensures x in ys <==> x in xs && x != xs[i] {
      if x in ys { assert x in xs[..i] || x in xs[i + 1..]; }
      if x in xs && x != xs[i] {
        var j :| 0 <= j < |xs| && xs[j] == x;
        assert ys[if j < i then j else j - 1] == x;
      }
    }
    forall j, k, x | Listed(lists2, j, k, x) ensures Listed(lists, j, k, x) && x != where[key] {
      if j != id || k != b { assert Listed(lists, j, k, x); }
    }
    forall k | k in where2 ensures Listed(lists2, ClusterId(k), BlockId(k), where2[k]) {
      assert Listed(lists, ClusterId(k), BlockId(k), where[k]);
    }
  }
}
