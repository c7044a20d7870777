/** Every step of every thread keeps the invariant of the central free lists. */
module CentralSteps {
  import opened Basics
  import opened CentralState
  import opened CentralInvariant
  import opened CentralMoves
  import opened CentralSpans

  // ----- steps that only move a thread on -----

  /** The thread carries what it carried and holds the span it held. */
  ghost predicate Quiet(spans: map<nat, Span>, pc: Pc, pc2: Pc) {
    && Carry(pc2) == Carry(pc) && (CarryTyped(spans, pc) ==> CarryTyped(spans, pc2))
    && LimboSpan(pc2) == LimboSpan(pc)
    && (pc2.LinkHeld? && pc2.span.Some? ==> pc.LinkWait? && pc.cl == pc2.cl)
    && (pc2.LinkWait? ==> pc2.span.None?)
  }

  lemma QuietData(s: State, t: nat, pc2: Pc, owner2: map<Lock, nat>)
    requires DataInv(s) && t in s.threads && Quiet(s.spans, s.threads[t], pc2)
    ensures DataInv(s.(threads := s.threads[t := pc2], owner := owner2))
  {
    HeapSameLimbo(s.cfg, s.spans, s.heap, s.threads, t, pc2);
    CarrySame(s.spans, s.loc, s.threads, t, pc2);
  }

  lemma CarrySame(spans: map<nat, Span>, loc: map<Obj, Place>, threads: map<nat, Pc>, t: nat, pc2: Pc)
    requires Carried(spans, loc, threads) && t in threads && Carry(pc2) == Carry(threads[t])
    requires CarryTyped(spans, threads[t]) ==> CarryTyped(spans, pc2)
    ensures Carried(spans, loc, threads[t := pc2])
  {
    assert CarryAt(spans, loc, t, threads[t]);
    forall u | u in threads ensures CarryAt(spans, loc, u, threads[t := pc2][u]) {
      assert CarryAt(spans, loc, u, threads[u]);
    }
  }

  lemma QuietTakeLock(spans: map<nat, Span>, pc: Pc)
    requires Wants(pc).Some?
    ensures Quiet(spans, pc, Wants(pc).value.1)
  {
  }

  /** From the insertion path to ReleaseListToSpans, or from one eviction attempt to the next. */
  lemma QuietInsert(spans: map<nat, Span>, pc: Pc, force: bool)
    requires pc.InsertHeld? || pc.Evict? || pc.Evicted?
    ensures Quiet(spans, pc, Release(pc.cl, pc.chain, Finish)) && Quiet(spans, pc, Evict(pc.cl, pc.chain, force))
  {
    assert pc.chain + [] == pc.chain;
  }

  lemma QuietReleased(spans: map<nat, Span>, pc: Pc)
    requires pc.Release? && pc.rest == []
    ensures pc.cont.Finish? ==> Quiet(spans, pc, Idle)
    ensures pc.cont.Resume? ==> Quiet(spans, pc, BackWait(pc.cont.cl, pc.cont.chain, pc.cont.force, true))
  {
    assert pc.rest + ContChain(pc.cont) == ContChain(pc.cont);
  }

  // ----- objects between client, threads and slots -----

  lemma CallInsertData(s: State, t: nat, c: nat, chain: seq<Obj>)
    requires DataInv(s) && t in s.threads && s.threads[t].Idle? && ClientChain(s, c, chain)
    ensures DataInv(s.(loc := Moved(s.loc, chain, InTransit(t)), threads := s.threads[t := InsertWait(c, chain)]))
  {
    var pc2 := InsertWait(c, chain);
    MoveKeepsObjects(s.cfg, s.spans, s.loc, chain, InTransit(t));
    MoveKeepsFree(s.spans, s.loc, chain, InTransit(t));
    MoveKeepsSlots(s.cfg, s.lists, s.spans, s.loc, chain, InTransit(t));
    assert chain + Carry(s.threads[t]) == chain;
    PickUp(s.spans, s.loc, s.threads, t, pc2, chain);
    HeapSameLimbo(s.cfg, s.spans, s.heap, s.threads, t, pc2);
  }

  /** A chain goes into the cache, which may grow by the slot it needs. */
  lemma PushData(s: State, t: nat, c: nat, chain: seq<Obj>, size: int)
    requires DataInv(s) && t in s.threads && c < |s.lists| && c < |s.cfg.maxCache|
    requires Carry(s.threads[t]) == chain && LimboSpan(s.threads[t]).None?
    requires OfClass(s.spans, chain, c) && |chain| == s.cfg.move[c]
    requires s.lists[c].cacheSize <= size <= s.cfg.maxCache[c] && |s.lists[c].slots| < size
    ensures DataInv(PushSlot(s, t, c, chain, size))
  {
    hide Objects, FreeLists, Slots, Carried, RefInv, Lists, HeapInv, CarryTyped, Moved;
    var s2 := PushSlot(s, t, c, chain, size);
    var to := Cached(c, |s.lists[c].slots|);
    assert chain == chain + Carry(Idle);
    PutDown(s.spans, s.loc, s.threads, t, Idle, chain, to);
    ThreadFacts(s, t, c);
    MoveKeepsObjects(s.cfg, s.spans, s.loc, chain, to);
    MoveKeepsFree(s.spans, s.loc, chain, to);
    SlotPush(s.cfg, s.lists, s.spans, s.loc, c, chain, size);
    ListsIgnoreSlots(s.lists, s.spans, c, s2.lists[c]);
    HeapSameLimbo(s.cfg, s.spans, s.heap, s.threads, t, Idle);
  }

  /** What the data invariant says about one thread and one class. */
  lemma ThreadFacts(s: State, t: nat, c: nat)
    requires DataInv(s) && t in s.threads && c < |s.lists|
    ensures CarryAt(s.spans, s.loc, t, s.threads[t])
    ensures |s.lists| == |s.cfg.move| == |s.cfg.maxCache|
    ensures |s.lists[c].slots| <= s.lists[c].cacheSize <= s.cfg.maxCache[c]
  {
  }

  lemma InsertData(s: State, t: nat)
    requires DataInv(s) && t in s.threads && s.threads[t].InsertHeld?
    requires s.threads[t].cl < |s.lists| == |s.cfg.move| == |s.cfg.maxCache|
    ensures DataInv(DoInsert(s, t, s.threads[t]))
  {
    hide DataInv, StepShape, Quiet;
    var pc := s.threads[t];
    var l := s.lists[pc.cl];
    ThreadFacts(s, t, pc.cl);
    if |pc.chain| == s.cfg.move[pc.cl] && |l.slots| < l.cacheSize {
      PushData(s, t, pc.cl, pc.chain, l.cacheSize);
    } else {
      QuietInsert(s.spans, pc, false);
      QuietData(s, t, DoInsert(s, t, pc).threads[t], s.owner);
    }
  }

  lemma EvictFailedData(s: State, t: nat)
    requires DataInv(s) && t in s.threads && (s.threads[t].Evict? || s.threads[t].Evicted?)
    ensures DataInv(EvictFailed(s, t, s.threads[t].cl, s.threads[t].chain, s.threads[t].force))
  {
    var pc := s.threads[t];
    QuietInsert(s.spans, pc, true);
    QuietData(s, t, if pc.force then Release(pc.cl, pc.chain, Finish) else Evict(pc.cl, pc.chain, true), s.owner);
  }

  lemma AfterEvictData(s: State, t: nat)
    requires DataInv(s) && t in s.threads && s.threads[t].Evicted? && PcInv(s.cfg, s.threads[t])
    requires |s.lists| == |s.cfg.move| == |s.cfg.maxCache|
    ensures DataInv(DoAfterEvict(s, t, s.threads[t]))
  {
    hide DataInv, StepShape, Quiet;
    var pc := s.threads[t];
    var l := s.lists[pc.cl];
    ThreadFacts(s, t, pc.cl);
    if !pc.ok {
      EvictFailedData(s, t);
    } else if l.cacheSize < s.cfg.maxCache[pc.cl] {
      PushData(s, t, pc.cl, pc.chain, l.cacheSize + 1);
    } else {
      QuietInsert(s.spans, pc, true);
      QuietData(s, t, Release(pc.cl, pc.chain, Finish), s.owner);
    }
  }

  /** ShrinkCache takes the last chain out of a full cache. */
  lemma ForcedShrinkData(s: State, t: nat, v: nat, pc2: Pc)
    requires DataInv(s) && t in s.threads && v < |s.lists| && s.threads[t].ShrinkHeld?
    requires |s.lists[v].slots| == s.lists[v].cacheSize > 0
    requires var pc, l := s.threads[t], s.lists[v];
             pc2 == Release(v, l.slots[|l.slots| - 1], Resume(pc.cl, pc.chain, pc.force))
    ensures var l := s.lists[v];
            DataInv(s.(lists := s.lists[v := PopSlot(l).(cacheSize := l.cacheSize - 1)],
                    loc := Moved(s.loc, l.slots[|l.slots| - 1], InTransit(t)), threads := s.threads[t := pc2]))
  {
    var l := s.lists[v];
    var popped := l.slots[|l.slots| - 1];
    assert CarryAt(s.spans, s.loc, t, s.threads[t]);
    SlotPop(s.cfg, s.lists, s.spans, s.loc, v, InTransit(t), l.cacheSize - 1);
    MoveKeepsObjects(s.cfg, s.spans, s.loc, popped, InTransit(t));
    MoveKeepsFree(s.spans, s.loc, popped, InTransit(t));
    PickUp(s.spans, s.loc, s.threads, t, pc2, popped);
    ListsIgnoreSlots(s.lists, s.spans, v, PopSlot(l).(cacheSize := l.cacheSize - 1));
    HeapSameLimbo(s.cfg, s.spans, s.heap, s.threads, t, pc2);
  }

  lemma ResizeData(s: State, v: nat, size: int)
    requires DataInv(s) && v < |s.lists| && |s.lists[v].slots| <= size <= s.lists[v].cacheSize
    ensures DataInv(s.(lists := s.lists[v := s.lists[v].(cacheSize := size)]))
  {
    var l2 := s.lists[v].(cacheSize := size);
    SlotsIgnoreLists(s.cfg, s.lists, s.spans, s.loc, v, l2);
    ListsIgnoreSlots(s.lists, s.spans, v, l2);
  }

  lemma ShrinkData(s: State, t: nat)
    requires DataInv(s) && t in s.threads && s.threads[t].ShrinkHeld? && s.threads[t].victim < |s.lists|
    ensures DataInv(DoShrink(s, t, s.threads[t]))
  {
    hide DataInv, StepShape;
    var pc := s.threads[t];
    var v, l := pc.victim, s.lists[pc.victim];
    ThreadFacts(s, t, v);
    var s2 := DoShrink(s, t, pc);
    if l.cacheSize == 0 || (|l.slots| == l.cacheSize && !pc.force) {
      QuietData(s, t, s2.threads[t], s2.owner);
    } else if |l.slots| == l.cacheSize {
      ForcedShrinkData(s, t, v, s2.threads[t]);
    } else {
      ResizeData(s, v, l.cacheSize - 1);
      QuietData(s.(lists := s.lists[v := l.(cacheSize := l.cacheSize - 1)]), t, s2.threads[t], s2.owner);
    }
  }

  /** RemoveRange hands the last cached chain to its caller. */
  lemma TakeCachedData(s: State, c: nat)
    requires DataInv(s) && c < |s.lists| && |s.lists[c].slots| > 0
    ensures DataInv(s.(lists := s.lists[c := PopSlot(s.lists[c])],
                    loc := Moved(s.loc, s.lists[c].slots[|s.lists[c].slots| - 1], Client)))
  {
    var l := s.lists[c];
    var popped := l.slots[|l.slots| - 1];
    SlotPop(s.cfg, s.lists, s.spans, s.loc, c, Client, l.cacheSize);
    MoveKeepsObjects(s.cfg, s.spans, s.loc, popped, Client);
    MoveKeepsFree(s.spans, s.loc, popped, Client);
    MoveKeepsCarried(s.spans, s.loc, s.threads, popped, Client);
    ListsIgnoreSlots(s.lists, s.spans, c, PopSlot(l));
  }

  lemma TryCachedData(s: State, t: nat)
    requires DataInv(s) && t in s.threads && s.threads[t].RemoveHeld? && s.threads[t].cl < |s.lists| == |s.cfg.move|
    ensures DataInv(DoTryCached(s, t, s.threads[t]))
  {
    hide DataInv, StepShape;
    var pc := s.threads[t];
    var c, l := pc.cl, s.lists[pc.cl];
    var s2 := DoTryCached(s, t, pc);
    if pc.n == s.cfg.move[c] && |l.slots| > 0 {
      TakeCachedData(s, c);
      QuietData(s.(lists := s2.lists, loc := s2.loc), t, Idle, s2.owner);
    } else {
      QuietData(s, t, s2.threads[t], s2.owner);
    }
  }

  lemma MoveKeepsCarried(spans: map<nat, Span>, loc: map<Obj, Place>, threads: map<nat, Pc>, xs: seq<Obj>, to: Place)
    requires Carried(spans, loc, threads) && !to.InTransit?
    requires forall o :: o in xs ==> o in loc && !loc[o].InTransit?
    ensures Carried(spans, Moved(loc, xs, to), threads)
  {
    forall t | t in threads ensures CarryAt(spans, Moved(loc, xs, to), t, threads[t]) {
      assert CarryAt(spans, loc, t, threads[t]);
    }
  }

  // ----- objects between threads and spans -----

  lemma ObjectsSameClasses(g: Config, spans: map<nat, Span>, spans2: map<nat, Span>, loc: map<Obj, Place>,
                           loc2: map<Obj, Place>)
    requires Objects(g, spans, loc) && SameClasses(spans, spans2) && loc2.Keys == loc.Keys
    ensures Objects(g, spans2, loc2)
  {
  }

  lemma RefUpdate(g: Config, spans: map<nat, Span>, p: nat, sp2: Span)
    requires RefInv(g, spans) && p in spans && sp2.cl == spans[p].cl
    requires sp2.refcount + |sp2.objects| == spans[p].refcount + |spans[p].objects|
    ensures RefInv(g, spans[p := sp2])
  {
  }

  lemma PutBackPlaces(s: State, t: nat, c: nat, o: Obj, pc2: Pc, sp2: Span)
    requires DataInv(s) && t in s.threads && c < |s.lists|
    requires Carry(s.threads[t]) == [o] + Carry(pc2) && CarryTyped(s.spans, pc2)
    requires o.page in s.spans
    requires sp2 == s.spans[o.page].(objects := [o] + s.spans[o.page].objects, refcount := s.spans[o.page].refcount - 1)
    ensures var spans2, loc2 := s.spans[o.page := sp2], s.loc[o := Free];
            && Objects(s.cfg, spans2, loc2) && FreeLists(spans2, loc2) && RefInv(s.cfg, spans2)
            && Carried(spans2, loc2, s.threads[t := pc2]) && Slots(s.cfg, s.lists, spans2, loc2)
  {
    hide Objects, FreeLists, Slots, Carried, RefInv, Lists, HeapInv, SlotInv, Carry, CarryTyped;
    var spans2, loc2 := s.spans[o.page := sp2], s.loc[o := Free];
    PutDown(s.spans, s.loc, s.threads, t, pc2, [o], Free);
    assert o in [o];
    assert loc2 == Moved(s.loc, [o], Free);
    assert SameClasses(s.spans, spans2);
    CarriedSameClasses(s.spans, spans2, loc2, s.threads[t := pc2]);
    PutBackFree(s.spans, s.loc, o, sp2);
    ObjectsSameClasses(s.cfg, s.spans, spans2, s.loc, loc2);
    RefUpdate(s.cfg, s.spans, o.page, sp2);
    MoveKeepsSlots(s.cfg, s.lists, s.spans, s.loc, [o], Free);
    SlotsSameClasses(s.cfg, s.lists, s.spans, spans2, loc2);
  }

  /** ReleaseToSpans with other objects of the span still out. */
  lemma PutBackData(s: State, t: nat, c: nat, o: Obj, pc2: Pc)
    requires DataInv(s) && t in s.threads && c < |s.lists|
    requires Carry(s.threads[t]) == [o] + Carry(pc2) && CarryTyped(s.spans, pc2)
    requires LimboSpan(s.threads[t]).None? && LimboSpan(pc2).None? && !pc2.LinkWait?
    requires o.page in s.spans && s.spans[o.page].cl == c
    ensures DataInv(PutBack(s, t, c, o, pc2))
  {
    hide Objects, FreeLists, Slots, Carried, RefInv, Lists, HeapInv, Carry, CarryTyped, Without;
    var s2, sp := PutBack(s, t, c, o, pc2), s.spans[o.page];
    var sp2 := sp.(objects := [o] + sp.objects, refcount := sp.refcount - 1);
    PutBackPlaces(s, t, c, o, pc2, sp2);
    SlotsIgnoreLists(s.cfg, s.lists, s2.spans, s2.loc, c, s2.lists[c]);
    PutBackLists(s.lists, s.spans, c, o, s2.lists[c], sp2);
    HeapSameLimbo(s.cfg, s.spans, s.heap, s.threads, t, pc2);
    HeapSameClasses(s.cfg, s.spans, s2.spans, s.heap, s2.threads);
  }

  /** When the last object out comes back, every other object of the span is on its free list. */
  lemma AllReturned(g: Config, spans: map<nat, Span>, loc: map<Obj, Place>, o: Obj)
    requires Objects(g, spans, loc) && FreeLists(spans, loc) && RefInv(g, spans)
    requires o in loc && !loc[o].Free? && spans[o.page].refcount == 1
    ensures forall x :: x in loc && x.page == o.page && x != o ==> loc[x] == Free
    ensures |spans[o.page].objects| + 1 == g.perSpan[spans[o.page].cl]
  {
    var sp := spans[o.page];
    assert o !in sp.objects;
    OnlyOneOut(o.page, g.perSpan[sp.cl], sp.objects, o);
    forall x | x in loc && x.page == o.page && x != o ensures loc[x] == Free {
      assert Obj(o.page, x.index) == x;
    }
  }

  ghost function OffPage(loc: map<Obj, Place>, p: nat): map<Obj, Place> {
    map x | x in loc && x.page != p :: loc[x]
  }

  lemma RetireFree(g: Config, spans: map<nat, Span>, loc: map<Obj, Place>, p: nat)
    requires Objects(g, spans, loc) && FreeLists(spans, loc) && RefInv(g, spans)
    ensures Objects(g, spans - {p}, OffPage(loc, p)) && FreeLists(spans - {p}, OffPage(loc, p))
    ensures RefInv(g, spans - {p})
  {
  }

  lemma RetireSlots(g: Config, lists: seq<CentralList>, spans: map<nat, Span>, loc: map<Obj, Place>, p: nat)
    requires Slots(g, lists, spans, loc)
    requires forall x :: x in loc && x.page == p ==> !loc[x].Cached?
    ensures Slots(g, lists, spans - {p}, OffPage(loc, p))
  {
    forall d, i | 0 <= d < |lists| && 0 <= i < |lists[d].slots|
      ensures ChainAt(g, spans - {p}, OffPage(loc, p), d, i, lists[d].slots[i])
    {
      assert ChainAt(g, spans, loc, d, i, lists[d].slots[i]);
    }
  }

  lemma RetireCarried(spans: map<nat, Span>, loc: map<Obj, Place>, threads: map<nat, Pc>, t: nat, o: Obj, pc2: Pc)
    requires Carried(spans, loc, threads) && t in threads
    requires Carry(threads[t]) == [o] + Carry(pc2) && CarryTyped(spans, pc2)
    requires forall x :: x in loc && x.page == o.page && x != o ==> !loc[x].InTransit?
    ensures Carried(spans - {o.page}, OffPage(loc, o.page), threads[t := pc2])
  {
    var threads2, p := threads[t := pc2], o.page;
    assert CarryAt(spans, loc, t, threads[t]);
    NoDupParts([o], Carry(pc2));
    assert o in [o];
    forall u | u in threads2 ensures CarryAt(spans - {p}, OffPage(loc, p), u, threads2[u]) {
      assert CarryAt(spans, loc, u, threads[u]);
      forall x | x in Carry(threads2[u]) ensures x.page != p {
        assert x in Carry(threads[u]);
        assert o in Carry(threads[t]);
      }
      CarryOffPage(spans, threads2[u], p);
    }
    forall x | x in OffPage(loc, p) && loc[x].InTransit?
      ensures loc[x].tid in threads2 && x in Carry(threads2[loc[x].tid])
    {
      assert x in Carry(threads[loc[x].tid]);
    }
  }

  /** A thread that carries no object of page p is not affected by its span leaving. */
  lemma CarryOffPage(spans: map<nat, Span>, pc: Pc, p: nat)
    requires CarryTyped(spans, pc) && forall x :: x in Carry(pc) ==> x.page != p
    ensures CarryTyped(spans - {p}, pc)
  {
    if pc.Release? || pc.DeleteWait? || pc.DeleteHeld? || pc.RelockWait? {
      forall x | x in pc.rest ensures x.page != p { assert x in Carry(pc); }
      forall x | x in ContChain(pc.cont) ensures x.page != p { assert x in Carry(pc); }
    }
  }

  lemma RetireHeap(g: Config, spans: map<nat, Span>, heap: map<nat, HeapSpan>, threads: map<nat, Pc>, t: nat, p: nat,
                   pc2: Pc)
    requires HeapInv(g, spans, heap, threads) && t in threads && p in spans && p in heap
    requires LimboSpan(threads[t]).None? && LimboSpan(pc2) == Some(p) && !pc2.LinkWait? && !pc2.LinkHeld?
    ensures HeapInv(g, spans - {p}, heap[p := heap[p].(place := Limbo(t))], threads[t := pc2])
  {
  }

  /** ReleaseToSpans with the last object of the span. */
  lemma RetireData(s: State, t: nat, c: nat, o: Obj, pc2: Pc)
    requires DataInv(s) && t in s.threads && c < |s.lists| && c < |s.cfg.perSpan|
    requires Carry(s.threads[t]) == [o] + Carry(pc2) && CarryTyped(s.spans, pc2)
    requires LimboSpan(s.threads[t]).None? && LimboSpan(pc2) == Some(o.page) && !pc2.LinkWait? && !pc2.LinkHeld?
    requires o.page in s.spans && s.spans[o.page].cl == c && s.spans[o.page].refcount == 1
    requires o.page in s.heap && o in s.loc && s.loc[o] == InTransit(t)
    ensures DataInv(Retire(s, t, c, o, pc2))
  {
    hide Objects, FreeLists, Slots, Carried, RefInv, Lists, HeapInv, Carry, CarryTyped, Without;
    var s2 := Retire(s, t, c, o, pc2);
    AllReturned(s.cfg, s.spans, s.loc, o);
    assert s2.loc == OffPage(s.loc, o.page);
    RetireFree(s.cfg, s.spans, s.loc, o.page);
    RetireSlots(s.cfg, s.lists, s.spans, s.loc, o.page);
    SlotsIgnoreLists(s.cfg, s.lists, s2.spans, s2.loc, c, s2.lists[c]);
    RetireCarried(s.spans, s.loc, s.threads, t, o, pc2);
    RetireLists(s.lists, s.spans, c, o.page, s.cfg.perSpan[c], s2.lists[c]);
    RetireHeap(s.cfg, s.spans, s.heap, s.threads, t, o.page, pc2);
  }

  /** Releasing the first of the carried objects. */
  lemma ReleaseOneData(s: State, t: nat)
    requires DataInv(s) && t in s.threads && s.threads[t].Release? && s.threads[t].rest != []
    requires s.threads[t].cl < |s.lists| && s.threads[t].cl < |s.cfg.perSpan|
    requires s.threads[t].rest[0].page in s.spans && s.threads[t].rest[0].page in s.heap
    ensures DataInv(DoRelease(s, t, s.threads[t]))
  {
    hide DataInv, StepShape, Quiet, PutBack, Retire, NoDup;
    var pc := s.threads[t];
    var o := pc.rest[0];
    ThreadFacts(s, t, pc.cl);
    var rest := pc.rest[1..];
    assert pc.rest == [o] + rest;
    assert Carry(pc) == [o] + (rest + ContChain(pc.cont));
    assert o in Carry(pc);
    if s.spans[o.page].refcount - 1 == 0 {
      RetireData(s, t, pc.cl, o, DeleteWait(pc.cl, rest, pc.cont, o.page));
    } else {
      PutBackData(s, t, pc.cl, o, Release(pc.cl, rest, pc.cont));
    }
  }

  lemma ReleaseData(s: State, t: nat)
    requires DataInv(s) && t in s.threads && s.threads[t].Release?
    requires s.threads[t].cl < |s.lists| && s.threads[t].cl < |s.cfg.perSpan|
    requires s.threads[t].rest != [] ==> s.threads[t].rest[0].page in s.spans && s.threads[t].rest[0].page in s.heap
    ensures DataInv(DoRelease(s, t, s.threads[t]))
  {
    hide DataInv, StepShape, Quiet, PutBack, Retire;
    var pc := s.threads[t];
    if pc.rest == [] {
      var s2 := DoRelease(s, t, pc);
      QuietReleased(s.spans, pc);
      QuietData(s, t, s2.threads[t], s2.owner);
    } else {
      ReleaseOneData(s, t);
    }
  }

  lemma DeleteData(s: State, t: nat, pc2: Pc, owner2: map<Lock, nat>)
    requires DataInv(s) && t in s.threads && s.threads[t].DeleteHeld?
    requires Carry(pc2) == Carry(s.threads[t]) && (CarryTyped(s.spans, s.threads[t]) ==> CarryTyped(s.spans, pc2))
    requires LimboSpan(pc2).None?
    ensures DataInv(s.(heap := s.heap - {s.threads[t].page}, owner := owner2, threads := s.threads[t := pc2]))
  {
    hide Objects, FreeLists, Slots, Carried, RefInv, Lists, HeapInv;
    CarrySame(s.spans, s.loc, s.threads, t, pc2);
    DeleteHeap(s.cfg, s.spans, s.heap, s.threads, t, s.threads[t].page, pc2);
  }

  /** A span its thread was about to delete is gone from the page heap's table. */
  lemma DeleteHeap(g: Config, spans: map<nat, Span>, heap: map<nat, HeapSpan>, threads: map<nat, Pc>, t: nat, p: nat,
                   pc2: Pc)
    requires HeapInv(g, spans, heap, threads) && t in threads && LimboSpan(threads[t]) == Some(p)
    requires LimboSpan(pc2).None?
    ensures HeapInv(g, spans, heap - {p}, threads[t := pc2])
  {
    hide LimboSpan;
    var heap2, threads2 := heap - {p}, threads[t := pc2];
    assert LimboAt(g, heap, t, threads[t]);
    forall u | u in threads2 && LimboSpan(threads2[u]).Some? ensures LimboAt(g, heap2, u, threads2[u]) {
      assert LimboAt(g, heap, u, threads[u]);
    }
  }

  lemma FetchTaken(spans: map<nat, Span>, loc: map<Obj, Place>, p: nat, k: nat)
    requires FreeLists(spans, loc) && p in spans && k <= |spans[p].objects|
    ensures var taken := spans[p].objects[..k];
            NoDup(taken) && forall o :: o in taken ==> o.page == p && o in loc && loc[o] == Free
  {
    forall o | o in spans[p].objects[..k] ensures o in spans[p].objects {}
  }

  /** The thread has the objects taken in front of those it had. */
  lemma FetchCarried(spans: map<nat, Span>, loc: map<Obj, Place>, threads: map<nat, Pc>, t: nat, p: nat, k: nat,
                     pc2: Pc)
    requires Carried(spans, loc, threads) && FreeLists(spans, loc) && t in threads && threads[t].Fetch? && pc2.Fetch?
    requires p in spans && k <= |spans[p].objects| && spans[p].cl == threads[t].cl == pc2.cl
    requires pc2.got == spans[p].objects[..k] + threads[t].got && CarryTyped(spans, threads[t])
    ensures Carried(spans, Moved(loc, spans[p].objects[..k], InTransit(t)), threads[t := pc2])
  {
    hide Carried, FreeLists, NoDup, Moved;
    FetchTaken(spans, loc, p, k);
    PickUp(spans, loc, threads, t, pc2, spans[p].objects[..k]);
  }

  lemma FetchOneData(s: State, t: nat)
    requires DataInv(s) && t in s.threads && s.threads[t].Fetch? && CarryTyped(s.spans, s.threads[t])
    requires var pc := s.threads[t]; pc.cl < |s.lists| && |pc.got| < pc.n && s.lists[pc.cl].nonempty != []
    requires var p := s.lists[s.threads[t].cl].nonempty[0]; p in s.spans && s.spans[p].cl == s.threads[t].cl
    ensures DataInv(FetchOne(s, t, s.threads[t]))
  {
    hide Objects, FreeLists, Slots, Carried, RefInv, Lists, HeapInv, NoDup, CarryTyped, Carry, Moved;
    var pc := s.threads[t];
    var c, p := pc.cl, s.lists[pc.cl].nonempty[0];
    var s2, sp := FetchOne(s, t, pc), s.spans[p];
    var k := Min(pc.n - |pc.got|, |sp.objects|);
    var taken := sp.objects[..k];
    assert SameClasses(s.spans, s2.spans);
    FetchTaken(s.spans, s.loc, p, k);
    MovedPlaces(s.loc, taken, InTransit(t));
    FetchCarried(s.spans, s.loc, s.threads, t, p, k, s2.threads[t]);
    CarriedSameClasses(s.spans, s2.spans, s2.loc, s2.threads);
    FetchFree(s.spans, s.loc, p, k, s2.spans[p], t);
    ObjectsSameClasses(s.cfg, s.spans, s2.spans, s.loc, s2.loc);
    RefUpdate(s.cfg, s.spans, p, s2.spans[p]);
    MoveKeepsSlots(s.cfg, s.lists, s.spans, s.loc, taken, InTransit(t));
    SlotsIgnoreLists(s.cfg, s.lists, s.spans, s2.loc, c, s2.lists[c]);
    SlotsSameClasses(s.cfg, s2.lists, s.spans, s2.spans, s2.loc);
    FetchLists(s.lists, s.spans, c, k, s2.lists[c], s2.spans[p]);
    HeapSameLimbo(s.cfg, s.spans, s.heap, s.threads, t, s2.threads[t]);
    HeapSameClasses(s.cfg, s.spans, s2.spans, s.heap, s2.threads);
  }

  /** RemoveRange returns what it has fetched. */
  lemma HandOutData(s: State, t: nat, owner2: map<Lock, nat>)
    requires DataInv(s) && t in s.threads && s.threads[t].Fetch?
    ensures DataInv(s.(loc := Moved(s.loc, s.threads[t].got, Client), owner := owner2, threads := s.threads[t := Idle]))
  {
    var got := s.threads[t].got;
    assert got == got + Carry(Idle);
    PutDown(s.spans, s.loc, s.threads, t, Idle, got, Client);
    MoveKeepsObjects(s.cfg, s.spans, s.loc, got, Client);
    MoveKeepsFree(s.spans, s.loc, got, Client);
    MoveKeepsSlots(s.cfg, s.lists, s.spans, s.loc, got, Client);
    HeapSameLimbo(s.cfg, s.spans, s.heap, s.threads, t, Idle);
  }

  lemma FrontOfList(s: State, c: nat)
    requires DataInv(s) && c < |s.lists|
    ensures forall p :: p in s.lists[c].nonempty ==> p in s.spans && s.spans[p].cl == c && s.spans[p].objects != []
  {
    hide Objects, FreeLists, Slots, Carried, RefInv, HeapInv;
    assert ListInv(s.spans, c, s.lists[c]);
  }

  lemma FetchData(s: State, t: nat)
    requires DataInv(s) && t in s.threads && s.threads[t].Fetch? && s.threads[t].cl < |s.lists|
    requires s.lists[s.threads[t].cl].nonempty != [] ==> s.lists[s.threads[t].cl].nonempty[0] in s.spans
    ensures DataInv(DoFetch(s, t, s.threads[t]))
  {
    hide DataInv, StepShape, FetchOne;
    var pc := s.threads[t];
    var s2 := DoFetch(s, t, pc);
    ThreadFacts(s, t, pc.cl);
    FrontOfList(s, pc.cl);
    if |pc.got| < pc.n && s.lists[pc.cl].nonempty != [] {
      FetchOneData(s, t);
    } else if pc.got == [] && !pc.populated {
      QuietData(s, t, s2.threads[t], s2.owner);
    } else {
      HandOutData(s, t, s2.owner);
    }
  }

  // ----- new spans -----

  lemma NewSpanHeap(g: Config, spans: map<nat, Span>, heap: map<nat, HeapSpan>, threads: map<nat, Pc>, t: nat, p: nat,
                    pc2: Pc)
    requires HeapInv(g, spans, heap, threads) && t in threads && LimboSpan(threads[t]).None?
    requires pc2.LinkWait? && pc2.span == Some(p) && pc2.cl < |g.pages| && g.pages[pc2.cl] >= 1
    requires p !in heap && forall q :: q in heap ==> q + heap[q].length <= p || p + g.pages[pc2.cl] <= q
    ensures HeapInv(g, spans, heap[p := HeapSpan(g.pages[pc2.cl], Limbo(t))], threads[t := pc2])
  {
    var heap2, threads2 := heap[p := HeapSpan(g.pages[pc2.cl], Limbo(t))], threads[t := pc2];
    forall u | u in threads2 && LimboSpan(threads2[u]).Some? ensures LimboAt(g, heap2, u, threads2[u]) {
      if u != t { assert LimboAt(g, heap, u, threads[u]); }
    }
  }

  lemma NewSpanData(s: State, t: nat, p: nat, owner2: map<Lock, nat>)
    requires DataInv(s) && t in s.threads && s.threads[t].NewHeld? && s.threads[t].cl < |s.cfg.pages|
    requires FreshPages(s, p, s.cfg.pages[s.threads[t].cl]) && s.cfg.pages[s.threads[t].cl] >= 1
    ensures var pc := s.threads[t];
            DataInv(s.(heap := s.heap[p := HeapSpan(s.cfg.pages[pc.cl], Limbo(t))], owner := owner2,
                    threads := s.threads[t := LinkWait(pc.cl, pc.n, Some(p))]))
  {
    hide Objects, FreeLists, Slots, Carried, RefInv, Lists, HeapInv;
    var pc := s.threads[t];
    var pc2 := LinkWait(pc.cl, pc.n, Some(p));
    CarrySame(s.spans, s.loc, s.threads, t, pc2);
    NewSpanHeap(s.cfg, s.spans, s.heap, s.threads, t, p, pc2);
  }

  ghost function WithFree(loc: map<Obj, Place>, objs: seq<Obj>): map<Obj, Place> {
    loc + (map o | o in objs :: Free)
  }

  lemma LinkFree(g: Config, spans: map<nat, Span>, loc: map<Obj, Place>, c: nat, p: nat)
    requires Objects(g, spans, loc) && FreeLists(spans, loc) && RefInv(g, spans) && p !in spans && 1 <= c < |g.perSpan|
    ensures var objs := Carved(p, g.perSpan[c]);
            var spans2 := spans[p := Span(c, objs, 0)];
            && Objects(g, spans2, WithFree(loc, objs)) && FreeLists(spans2, WithFree(loc, objs)) && RefInv(g, spans2)
            && forall o :: o in objs ==> o !in loc
  {
    hide Carved, WithFree, FreeLists, Objects;
    CarvedObjects(p, g.perSpan[c]);
    LinkObjects(g, spans, loc, c, p, Carved(p, g.perSpan[c]));
    LinkFreeLists(spans, loc, c, p, Carved(p, g.perSpan[c]));
  }

  lemma LinkObjects(g: Config, spans: map<nat, Span>, loc: map<Obj, Place>, c: nat, p: nat, objs: seq<Obj>)
    requires Objects(g, spans, loc) && p !in spans && 1 <= c < |g.perSpan|
    requires forall o :: o in objs <==> o.page == p && o.index < g.perSpan[c]
    ensures Objects(g, spans[p := Span(c, objs, 0)], WithFree(loc, objs)) && forall o :: o in objs ==> o !in loc
  {
  }

  lemma LinkFreeLists(spans: map<nat, Span>, loc: map<Obj, Place>, c: nat, p: nat, objs: seq<Obj>)
    requires FreeLists(spans, loc) && p !in spans && NoDup(objs) && forall o :: o in objs ==> o.page == p
    ensures FreeLists(spans[p := Span(c, objs, 0)], WithFree(loc, objs))
  {
    hide NoDup;
    var spans2, loc2 := spans[p := Span(c, objs, 0)], WithFree(loc, objs);
    forall q, o | q in spans2 && o in spans2[q].objects ensures o.page == q && o in loc2 && loc2[o] == Free {
      if q != p { assert o in spans[q].objects; }
    }
  }

  lemma CarvedObjects(p: nat, n: nat)
    ensures NoDup(Carved(p, n)) && forall o :: o in Carved(p, n) <==> o.page == p && o.index < n
  {
    var objs := Carved(p, n);
    forall o ensures o in objs <==> o.page == p && o.index < n {
      if o.page == p && o.index < n { assert objs[o.index] == o; }
    }
  }

  lemma LinkSlots(g: Config, lists: seq<CentralList>, spans: map<nat, Span>, loc: map<Obj, Place>, p: nat, sp: Span,
                  objs: seq<Obj>)
    requires Slots(g, lists, spans, loc) && p !in spans && forall o :: o in objs ==> o !in loc
    ensures Slots(g, lists, spans[p := sp], WithFree(loc, objs))
  {
    forall d, i | 0 <= d < |lists| && 0 <= i < |lists[d].slots|
      ensures ChainAt(g, spans[p := sp], WithFree(loc, objs), d, i, lists[d].slots[i])
    {
      assert ChainAt(g, spans, loc, d, i, lists[d].slots[i]);
    }
  }

  lemma LinkCarried(spans: map<nat, Span>, loc: map<Obj, Place>, threads: map<nat, Pc>, p: nat, sp: Span,
                    objs: seq<Obj>)
    requires Carried(spans, loc, threads) && p !in spans && forall o :: o in objs ==> o !in loc
    ensures Carried(spans[p := sp], WithFree(loc, objs), threads)
  {
    forall u | u in threads ensures CarryAt(spans[p := sp], WithFree(loc, objs), u, threads[u]) {
      assert CarryAt(spans, loc, u, threads[u]);
    }
  }

  lemma LinkHeap(g: Config, spans: map<nat, Span>, heap: map<nat, HeapSpan>, threads: map<nat, Pc>, t: nat, p: nat,
                 sp: Span, pc2: Pc)
    requires HeapInv(g, spans, heap, threads) && t in threads && threads[t].LinkHeld? && threads[t].span == Some(p)
    requires sp.cl == threads[t].cl && pc2.Fetch?
    ensures p in heap && p !in spans
    ensures HeapInv(g, spans[p := sp], heap[p := heap[p].(place := Listed)], threads[t := pc2])
  {
    assert LimboAt(g, heap, t, threads[t]);
    var heap2, threads2 := heap[p := heap[p].(place := Listed)], threads[t := pc2];
    forall u | u in threads2 && LimboSpan(threads2[u]).Some? ensures LimboAt(g, heap2, u, threads2[u]) {
      assert LimboAt(g, heap, u, threads[u]);
    }
  }

  lemma LinkData(s: State, t: nat, pc2: Pc)
    requires DataInv(s) && ValidConfig(s.cfg) && t in s.threads && s.threads[t].LinkHeld? && PcInv(s.cfg, s.threads[t])
    requires s.threads[t].span.Some? && s.threads[t].span.value in s.heap && s.threads[t].cl < |s.lists|
    requires pc2.Fetch? && pc2.got == []
    ensures DataInv(LinkSpan(s, t, s.threads[t].cl, s.threads[t].span.value, pc2))
  {
    hide Objects, FreeLists, Slots, Carried, RefInv, Lists, HeapInv;
    var pc := s.threads[t];
    var c, p := pc.cl, pc.span.value;
    var s2, objs := LinkSpan(s, t, c, p, pc2), Carved(p, s.cfg.perSpan[c]);
    LinkHeap(s.cfg, s.spans, s.heap, s.threads, t, p, s2.spans[p], pc2);
    LinkFree(s.cfg, s.spans, s.loc, c, p);
    assert s2.loc == WithFree(s.loc, objs);
    LinkSlots(s.cfg, s.lists, s.spans, s.loc, p, s2.spans[p], objs);
    SlotsIgnoreLists(s.cfg, s.lists, s2.spans, s2.loc, c, s2.lists[c]);
    CarrySame(s.spans, s.loc, s.threads, t, pc2);
    LinkCarried(s.spans, s.loc, s2.threads, p, s2.spans[p], objs);
    LinkLists(s.lists, s.spans, c, p, s2.spans[p], s2.lists[c]);
  }
}
