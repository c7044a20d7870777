/** The central free lists on top of the size map: the configuration Init yields, the bytes that
    objects occupy, and the memory lost at the end of spans. */
module CentralGeometry {
  import opened Basics
  import SizeMap
  import opened CentralState
  import opened CentralInvariant
  import opened CentralRuns

  const PAGE_SIZE := SizeMap.PAGE_SIZE

  /** Slots a class may ever have: 64, but at most 1 MB of objects or one slot. */
  function MaxCache(size: nat, move: nat): nat {
    if size == 0 || move == 0 then MAX_TRANSFER_ENTRIES
    else Min(MAX_TRANSFER_ENTRIES, if 1048576 / (size * move) < 1 then 1 else 1048576 / (size * move))
  }

  /** A class may have the most slots, up to 64, that hold at most 1 MB of objects; one in any case. */
  lemma CacheIsOneMegabyte(size: nat, move: nat, m: nat)
    requires size > 0 && move > 0
    ensures m == MaxCache(size, move) <==>
            && 1 <= m <= 64 && (m == 1 || m * (size * move) <= 1024 * 1024)
            && (m == 64 || (m + 1) * (size * move) > 1024 * 1024)
  {
    var n := size * move;
    MulMono(1, move, size);
    assert n >= 1;
    QuotientIs(1048576, n, m);
    QuotientIs(1048576, n, m + 1);
  }

  lemma QuotientIs(a: nat, n: nat, k: nat)
    requires n >= 1
    ensures k <= a / n <==> k * n <= a
  {
    SizeMap.DivBounds(a, n);
    if k <= a / n { MulMono(k, a / n, n); } else { MulMono(a / n + 1, k, n); }
  }

  function MoveOf(sizes: seq<nat>, limit: int, c: nat): nat
    requires c < |sizes|
  {
    if SizeMap.NumMoveSize(sizes[c], limit) < 0 then 0 else SizeMap.NumMoveSize(sizes[c], limit)
  }

  /** What CentralFreeList::Init reads from the size map for every class. */
  function ConfigOf(sizes: seq<nat>, pages: seq<nat>, limit: int): Config
    requires |sizes| == |pages|
  {
    Config(seq(|sizes|, c requires 0 <= c < |sizes| => if sizes[c] == 0 then 0 else (pages[c] * PAGE_SIZE) / sizes[c]),
           pages,
           seq(|sizes|, c requires 0 <= c < |sizes| => MoveOf(sizes, limit, c)),
           seq(|sizes|, c requires 0 <= c < |sizes| => MaxCache(sizes[c], MoveOf(sizes, limit, c))))
  }

  lemma MovesSome(size: nat, limit: int)
    requires size > 0 && limit > 0
    ensures SizeMap.NumMoveSize(size, limit) >= 1
  {
  }

  /** The classes the size map computes make a configuration the central lists can run with. */
  lemma ConfigIsValid(sizes: seq<nat>, pages: seq<nat>, limit: int)
    requires SizeMap.Classes(sizes, pages, limit) && limit > 0
    ensures ValidConfig(ConfigOf(sizes, pages, limit))
  {
    hide SizeMap.GoodClass, SizeMap.NumMoveSize, MaxCache;
    var g := ConfigOf(sizes, pages, limit);
    forall c | 1 <= c < |sizes| ensures g.perSpan[c] >= 1 && g.pages[c] >= 1 && g.move[c] >= 1 {
      assert SizeMap.GoodClass(sizes[c], pages[c], limit);
      GoodClassFacts(sizes[c], pages[c], limit);
      MovesSome(sizes[c], limit);
    }
    forall c | 0 <= c < |sizes| ensures g.maxCache[c] <= MAX_TRANSFER_ENTRIES {
      CacheAtMost(sizes[c], MoveOf(sizes, limit, c));
    }
  }

  lemma CacheAtMost(size: nat, move: nat)
    ensures MaxCache(size, move) <= MAX_TRANSFER_ENTRIES
  {
  }

  lemma GoodClassFacts(size: nat, pages: nat, limit: int)
    requires SizeMap.GoodClass(size, pages, limit)
    ensures size > 0 && pages >= 1 && (pages * PAGE_SIZE) / size >= 1
    ensures (pages * PAGE_SIZE) % size <= (pages * PAGE_SIZE) / 8
    ensures (pages * PAGE_SIZE) / size >= SizeMap.AsSize(SizeMap.BlocksToMove(size, limit))
  {
  }

  // ----- memory lost at the end of spans -----

  /** CentralFreeList::OverheadBytes */
  function OverheadBytes(numSpans: nat, size: nat, pages: nat): nat {
    if size == 0 then 0 else numSpans * ((pages * PAGE_SIZE) % size)
  }

  /** At most an eighth of the bytes in a class's spans is lost. */
  lemma OverheadIsSmall(sizes: seq<nat>, pages: seq<nat>, limit: int, c: nat, numSpans: nat)
    requires SizeMap.Classes(sizes, pages, limit) && 1 <= c < |sizes|
    ensures 8 * OverheadBytes(numSpans, sizes[c], pages[c]) <= numSpans * (pages[c] * PAGE_SIZE)
  {
    hide SizeMap.GoodClass;
    assert SizeMap.GoodClass(sizes[c], pages[c], limit);
    GoodClassFacts(sizes[c], pages[c], limit);
    ScaleEighth(numSpans, (pages[c] * PAGE_SIZE) % sizes[c], pages[c] * PAGE_SIZE);
  }

  /** The bytes of the spans in ps, by the page heap's table. */
  ghost function SpanSpace(heap: map<nat, HeapSpan>, ps: seq<nat>): nat {
    if ps == [] then 0 else (if ps[0] in heap then heap[ps[0]].length * PAGE_SIZE else 0) + SpanSpace(heap, ps[1..])
  }

  lemma {:induction false} SpanSpaceIs(heap: map<nat, HeapSpan>, ps: seq<nat>, len: nat)
    requires forall p :: p in ps ==> p in heap && heap[p].length == len
    ensures SpanSpace(heap, ps) == |ps| * (len * PAGE_SIZE)
  {
    if ps != [] {
      assert ps[0] in ps;
      SpanSpaceIs(heap, ps[1..], len);
      assert |ps| * (len * PAGE_SIZE) == (|ps| - 1) * (len * PAGE_SIZE) + len * PAGE_SIZE;
    }
  }

  /** What OverheadBytes counts is just what the objects leave over. */
  lemma OverheadIsTheRest(numSpans: nat, size: nat, pages: nat)
    requires size > 0
    ensures OverheadBytes(numSpans, size, pages) + numSpans * ((pages * PAGE_SIZE) / size * size) ==
            numSpans * (pages * PAGE_SIZE)
  {
    var all := pages * PAGE_SIZE;
    assert all == all / size * size + all % size;
    assert numSpans * all == numSpans * (all / size * size) + numSpans * (all % size);
  }

  /** In every state of every run, what OverheadBytes gives for a class is what its objects leave of the bytes
      in the spans on its two lists, and at most an eighth of those. */
  lemma OverheadInRun(run: seq<State>, i: nat, sizes: seq<nat>, pages: seq<nat>, limit: int, c: nat)
    requires IsRun(run) && i < |run| && SizeMap.Classes(sizes, pages, limit)
    requires run[0].cfg == ConfigOf(sizes, pages, limit)
    requires 1 <= c < |sizes| && c < |run[i].lists|
    ensures var l := run[i].lists[c];
            && l.numSpans >= 0
            && 8 * OverheadBytes(l.numSpans, sizes[c], pages[c]) <= SpanSpace(run[i].heap, l.nonempty + l.empty)
            && OverheadBytes(l.numSpans, sizes[c], pages[c]) + l.numSpans * (run[0].cfg.perSpan[c] * sizes[c]) ==
               SpanSpace(run[i].heap, l.nonempty + l.empty)
  {
    hide IsRun, Inv, TotalSlots, SizeMap.Classes, SizeMap.NumMoveSize, MaxCache, MoveOf, OverheadBytes, SpanSpace;
    RunInv(run, i);
    var l := run[i].lists[c];
    ListedLengths(run[i], c);
    SpanSpaceIs(run[i].heap, l.nonempty + l.empty, run[i].cfg.pages[c]);
    OverheadIsSmall(sizes, pages, limit, c, l.numSpans);
    SizesPositive(sizes, pages, limit, c);
    OverheadIsTheRest(l.numSpans, sizes[c], pages[c]);
  }

  lemma SizesPositive(sizes: seq<nat>, pages: seq<nat>, limit: int, c: nat)
    requires SizeMap.Classes(sizes, pages, limit) && 1 <= c < |sizes|
    ensures sizes[c] > 0
  {
    hide SizeMap.GoodClass;
    assert SizeMap.GoodClass(sizes[c], pages[c], limit);
    GoodClassFacts(sizes[c], pages[c], limit);
  }

  lemma ListedLengths(s: State, c: nat)
    requires Inv(s) && c < |s.lists|
    ensures |s.lists| == |s.cfg.pages| && s.lists[c].numSpans == |s.lists[c].nonempty + s.lists[c].empty|
    ensures forall p :: p in s.lists[c].nonempty + s.lists[c].empty ==>
            p in s.heap && s.heap[p].length == s.cfg.pages[c]
  {
    hide LockInv, PcInv, Objects, FreeLists, Carried, RefInv, SumFree, ChainAt;
    assert ListInv(s.spans, c, s.lists[c]);
  }

  lemma ScaleEighth(n: nat, a: nat, b: nat)
    requires 8 * a <= b
    ensures 8 * (n * a) <= n * b
  {
    MulMono(8 * a, b, n);
    assert n * (8 * a) == 8 * (n * a);
  }

  // ----- addresses -----

  function Address(size: nat, o: Obj): nat {
    o.page * PAGE_SIZE + o.index * size
  }

  /** The bytes of the i-th of n objects lie inside a span of len pages. */
  lemma InsideSpan(size: nat, n: nat, len: nat, o: Obj)
    requires size > 0 && n == (len * PAGE_SIZE) / size && o.index < n
    ensures o.page * PAGE_SIZE <= Address(size, o) && Address(size, o) + size <= (o.page + len) * PAGE_SIZE
  {
    SizeMap.DivBounds(len * PAGE_SIZE, size);
    MulMono(o.index + 1, n, size);
    assert (o.index + 1) * size == o.index * size + size;
  }

  /** MapObjectToSpan: the object's own span contains the page of its address, and no other span that
      the page heap has handed out does. */
  lemma MapObjectToSpan(run: seq<State>, i: nat, sizes: seq<nat>, pages: seq<nat>, limit: int, o: Obj, q: nat)
    requires IsRun(run) && i < |run| && SizeMap.Classes(sizes, pages, limit)
    requires run[0].cfg == ConfigOf(sizes, pages, limit)
    requires LiveObject(run[i], o) && run[i].spans[o.page].cl < |sizes|
    ensures o.page in run[i].heap
    ensures var p := Address(sizes[run[i].spans[o.page].cl], o) / PAGE_SIZE;
            q in run[i].heap && q <= p < q + run[i].heap[q].length <==> q == o.page
  {
    hide IsRun, LockInv, PcInv, FreeLists, Slots, Carried, RefInv, Lists, TotalSlots, SizeMap.GoodClass;
    RunInv(run, i);
    var s := run[i];
    var c := s.spans[o.page].cl;
    assert o.page in s.heap && s.heap[o.page].length == pages[c];
    assert SizeMap.GoodClass(sizes[c], pages[c], limit);
    GoodClassFacts(sizes[c], pages[c], limit);
    InsideSpan(sizes[c], s.cfg.perSpan[c], pages[c], o);
    PageInside(Address(sizes[c], o), o.page, pages[c]);
  }

  lemma PageInside(a: nat, page: nat, len: nat)
    requires page * PAGE_SIZE <= a < (page + len) * PAGE_SIZE
    ensures page <= a / PAGE_SIZE < page + len
  {
  }

  /** No two live objects share a byte. */
  lemma ObjectsDoNotOverlap(run: seq<State>, i: nat, sizes: seq<nat>, pages: seq<nat>, limit: int, o: Obj, x: Obj)
    requires IsRun(run) && i < |run| && SizeMap.Classes(sizes, pages, limit)
    requires run[0].cfg == ConfigOf(sizes, pages, limit)
    requires LiveObject(run[i], o) && LiveObject(run[i], x)
    requires (o.page < x.page || (o.page == x.page && o.index < x.index))
    requires run[i].spans[o.page].cl < |sizes| && run[i].spans[x.page].cl < |sizes|
    ensures Address(sizes[run[i].spans[o.page].cl], o) + sizes[run[i].spans[o.page].cl]
            <= Address(sizes[run[i].spans[x.page].cl], x)
  {
    hide IsRun, LockInv, PcInv, FreeLists, Slots, Carried, RefInv, Lists, TotalSlots, SizeMap.GoodClass, Address;
    RunInv(run, i);
    var s := run[i];
    var c := s.spans[o.page].cl;
    assert o.page in s.heap && s.heap[o.page].length == pages[c] && x.page in s.heap;
    assert SizeMap.GoodClass(sizes[c], pages[c], limit);
    GoodClassFacts(sizes[c], pages[c], limit);
    if o.page == x.page {
      SameSpan(sizes[c], o, x);
    } else {
      InsideSpan(sizes[c], s.cfg.perSpan[c], pages[c], o);
      assert o.page + s.heap[o.page].length <= x.page;
      AfterSpan(sizes[s.spans[x.page].cl], x, o.page + pages[c]);
    }
  }

  lemma SameSpan(size: nat, o: Obj, x: Obj)
    requires o.page == x.page && o.index < x.index
    ensures Address(size, o) + size <= Address(size, x)
  {
    MulMono(o.index + 1, x.index, size);
    assert (o.index + 1) * size == o.index * size + size;
  }

  lemma AfterSpan(size: nat, x: Obj, page: nat)
    requires page <= x.page
    ensures page * PAGE_SIZE <= Address(size, x)
  {
  }
}
