/** What the steps of one call come to, over every run: when a cached chain is used or a slot taken, and
    when a span goes back to the page heap. */
module CentralCalls {
  import opened Basics
  import opened CentralState
  import opened CentralInvariant
  import opened CentralSpans
  import opened CentralSteps
  import opened CentralRuns

  lemma OnlyTryCached(s: State, t: nat, e: Event, s2: State)
    requires Next(s, t, e, s2) && s.threads[t].RemoveHeld?
    ensures t in s.threads
    ensures var pc := s.threads[t]; pc.cl < |s.lists| && pc.cl < |s.cfg.move| && s2 == DoTryCached(s, t, pc)
  {
    hide DoTryCached, ClientChain, FreshPages, StepShape, DoInsert, DoShrink, DoAfterEvict, DoRelease, DoFetch,
         LinkSpan;
  }

  /** RemoveRange under its lock returns at once exactly when N is the transfer size and a slot is used.
      Then exactly the objects of the last used slot become the client's, and that slot is free again. */
  lemma CachedChainIsUsed(run: seq<State>, i: nat, t: nat, e: Event)
    requires IsRun(run) && i + 1 < |run| && Next(run[i], t, e, run[i + 1]) && run[i].threads[t].RemoveHeld?
    ensures var s, s2, pc := run[i], run[i + 1], run[i].threads[t];
            && pc.cl < |s.lists| == |s2.lists| && pc.cl < |s.cfg.move| && t in s2.threads
            && var used := |s.lists[pc.cl].slots|;
            && (s2.threads[t].Idle? <==> pc.n == s.cfg.move[pc.cl] && used > 0)
            && s2.loc.Keys == s.loc.Keys
            && (s2.threads[t].Idle? ==> s2.lists[pc.cl].slots == s.lists[pc.cl].slots[..used - 1])
            && forall o :: o in s.loc ==>
                 s2.loc[o] == if s2.threads[t].Idle? && s.loc[o] == Cached(pc.cl, used - 1) then Client else s.loc[o]
  {
    hide IsRun, Next, TotalSlots, FreeLists, Objects, Carried, RefInv, Lists, HeapInv, LockInv, PcInv, StepShape;
    RunInv(run, i);
    OnlyTryCached(run[i], t, e, run[i + 1]);
    Sizes(run[i]);
    var s, pc := run[i], run[i].threads[t];
    var k := |s.lists[pc.cl].slots| - 1;
    if k >= 0 { assert ChainAt(s.cfg, s.spans, s.loc, pc.cl, k, s.lists[pc.cl].slots[k]); }
  }

  lemma OnlyInsert(s: State, t: nat, e: Event, s2: State)
    requires Next(s, t, e, s2) && s.threads[t].InsertHeld?
    ensures t in s.threads
    ensures var pc := s.threads[t];
            && pc.cl < |s.lists| && pc.cl < |s.cfg.move| && pc.cl < |s.cfg.maxCache|
            && s2 == DoInsert(s, t, pc)
  {
    hide DoTryCached, ClientChain, FreshPages, StepShape, DoInsert, DoShrink, DoAfterEvict, DoRelease, DoFetch,
         LinkSpan;
  }

  /** The chain is in a slot of its own behind those used before, and nothing else has moved. */
  ghost predicate CachedNow(s: State, s2: State, c: nat, chain: seq<Obj>)
    requires c < |s.lists|
  {
    && c < |s2.lists| && s2.lists[c].slots == s.lists[c].slots + [chain] && s2.loc.Keys == s.loc.Keys
    && forall o :: o in s.loc ==> s2.loc[o] == if o in chain then Cached(c, |s.lists[c].slots|) else s.loc[o]
  }

  /** InsertRange under its lock: a chain of the transfer length goes into a free slot when there is one.
      Otherwise it tries to take a slot from another class if its cache may grow, and gives the chain back
      to the spans if it may not or the length is another. */
  lemma InsertedChainGoes(run: seq<State>, i: nat, t: nat, e: Event)
    requires IsRun(run) && i + 1 < |run| && Next(run[i], t, e, run[i + 1]) && run[i].threads[t].InsertHeld?
    ensures var s, s2, pc := run[i], run[i + 1], run[i].threads[t];
            && t in s2.threads && pc.cl < |s.lists| && pc.cl < |s.cfg.move| && pc.cl < |s.cfg.maxCache|
            && var c, l := pc.cl, s.lists[pc.cl];
            var rightLength := |pc.chain| == s.cfg.move[c];
            if rightLength && |l.slots| < l.cacheSize then s2.threads[t].Idle? && CachedNow(s, s2, c, pc.chain)
            else
              && s2.loc == s.loc && s2.lists == s.lists
              && s2.threads[t] == if rightLength && l.cacheSize < s.cfg.maxCache[c] then Evict(c, pc.chain, false)
                                  else Release(c, pc.chain, Finish)
  {
    hide IsRun, Next, TotalSlots, DataInv, LockInv, PcInv, StepShape;
    RunInv(run, i);
    OnlyInsert(run[i], t, e, run[i + 1]);
    BoundAt(run[i], run[i].threads[t].cl);
  }

  lemma BoundAt(s: State, c: nat)
    requires Inv(s) && c < |s.lists| && c < |s.cfg.maxCache|
    ensures s.lists[c].cacheSize <= s.cfg.maxCache[c]
  {
    hide Objects, FreeLists, Slots, Carried, RefInv, Lists, HeapInv, LockInv, PcInv;
  }

  lemma OnlyAfterEvict(s: State, t: nat, e: Event, s2: State)
    requires Next(s, t, e, s2) && s.threads[t].Evicted?
    ensures t in s.threads
    ensures var pc := s.threads[t];
            pc.cl < |s.lists| && pc.cl < |s.cfg.maxCache| && s2 == DoAfterEvict(s, t, pc)
  {
    hide DoTryCached, ClientChain, FreshPages, StepShape, DoInsert, DoShrink, DoAfterEvict, DoRelease, DoFetch,
         LinkSpan;
  }

  /** Back from another class with a slot, its own cache grows by that slot and takes the chain, unless it
      has reached its maximum in the meantime. Without one it tries again by force, and gives the chain back
      to the spans only when it has tried by force. */
  lemma EvictedChainGoes(run: seq<State>, i: nat, t: nat, e: Event)
    requires IsRun(run) && i + 1 < |run| && Next(run[i], t, e, run[i + 1]) && run[i].threads[t].Evicted?
    ensures var s, s2, pc := run[i], run[i + 1], run[i].threads[t];
            && t in s2.threads && pc.cl < |s.lists| && pc.cl < |s.cfg.maxCache|
            && var c, l := pc.cl, s.lists[pc.cl];
            if pc.ok && l.cacheSize < s.cfg.maxCache[c] then
              s2.threads[t].Idle? && CachedNow(s, s2, c, pc.chain) && s2.lists[c].cacheSize == l.cacheSize + 1
            else
              && s2.loc == s.loc && s2.lists == s.lists
              && s2.threads[t] == if !pc.ok && !pc.force then Evict(c, pc.chain, true) else Release(c, pc.chain, Finish)
  {
    hide IsRun, Next, TotalSlots, DataInv, LockInv, PcInv, StepShape;
    OnlyAfterEvict(run[i], t, e, run[i + 1]);
  }

  lemma OnlyShrink(s: State, t: nat, e: Event, s2: State)
    requires Next(s, t, e, s2) && s.threads[t].ShrinkHeld?
    ensures t in s.threads
    ensures var pc := s.threads[t]; pc.victim < |s.lists| && s2 == DoShrink(s, t, pc)
  {
    hide DoTryCached, ClientChain, FreshPages, StepShape, DoInsert, DoShrink, DoAfterEvict, DoRelease, DoFetch,
         LinkSpan;
  }

  /** ShrinkCache takes a slot from the victim exactly when it has one, and it is free or force is used; a
      slot in use is emptied, and its chain, and only that, is then given back to the spans. */
  lemma VictimGivesSlot(run: seq<State>, i: nat, t: nat, e: Event)
    requires IsRun(run) && i + 1 < |run| && Next(run[i], t, e, run[i + 1]) && run[i].threads[t].ShrinkHeld?
    ensures var s, s2, pc := run[i], run[i + 1], run[i].threads[t];
            && t in s2.threads && pc.victim < |s.lists| == |s2.lists|
            && var l, l2 := s.lists[pc.victim], s2.lists[pc.victim];
            var used := |l.slots|;
            var takes := l.cacheSize > 0 && (used < l.cacheSize || pc.force);
            && l2.cacheSize == l.cacheSize - (if takes then 1 else 0)
            && (if takes && used == l.cacheSize then
                  && l2.slots == l.slots[..used - 1]
                  && s2.threads[t] == Release(pc.victim, l.slots[used - 1], Resume(pc.cl, pc.chain, pc.force))
                else
                  && l2.slots == l.slots && s2.loc == s.loc
                  && s2.threads[t] == BackWait(pc.cl, pc.chain, pc.force, takes))
  {
    hide IsRun, Next, TotalSlots, DataInv, LockInv, PcInv, StepShape, Moved;
    RunInv(run, i);
    OnlyShrink(run[i], t, e, run[i + 1]);
    SlotsAt(run[i], run[i].threads[t].victim);
  }

  lemma SlotsAt(s: State, c: nat)
    requires Inv(s) && c < |s.lists|
    ensures |s.lists[c].slots| <= s.lists[c].cacheSize
  {
    hide Objects, FreeLists, Slots, Carried, RefInv, Lists, HeapInv, LockInv, PcInv;
  }

  lemma OnlyRelease(s: State, t: nat, e: Event, s2: State)
    requires Next(s, t, e, s2) && s.threads[t].Release?
    ensures t in s.threads
    ensures var pc := s.threads[t];
            && pc.cl < |s.lists| && pc.cl < |s.cfg.perSpan|
            && (pc.rest != [] ==> pc.rest[0].page in s.spans && pc.rest[0].page in s.heap)
            && s2 == DoRelease(s, t, pc)
  {
    hide DoTryCached, ClientChain, FreshPages, StepShape, DoInsert, DoShrink, DoAfterEvict, DoRelease, DoFetch,
         LinkSpan;
  }

  /** Every object of o's span but o is on its free list. */
  ghost predicate LastOneOut(s: State, o: Obj) {
    forall x :: LiveObject(s, x) && x.page == o.page && x != o ==> OnFreeList(s, x)
  }

  /** ReleaseToSpans: the span leaves its lists for the page heap exactly when the object given back was
      the last one out; otherwise the object is in front of its span's free list. */
  lemma ReleasedObjectGoes(run: seq<State>, i: nat, t: nat, e: Event)
    requires IsRun(run) && i + 1 < |run| && Next(run[i], t, e, run[i + 1]) && run[i].threads[t].Release?
    requires run[i].threads[t].rest != []
    ensures var s, s2, pc, o := run[i], run[i + 1], run[i].threads[t], run[i].threads[t].rest[0];
            && t in s2.threads && o.page in s.spans
            && (if LastOneOut(s, o) then
                  && o.page !in s2.spans && o.page in s2.heap && s2.heap[o.page].place == Limbo(t)
                  && s2.threads[t] == DeleteWait(pc.cl, pc.rest[1..], pc.cont, o.page)
                else
                  && o.page in s2.spans && s2.spans[o.page].objects == [o] + s.spans[o.page].objects
                  && s2.threads[t] == Release(pc.cl, pc.rest[1..], pc.cont))
  {
    hide IsRun, Next, TotalSlots, Slots, Lists, HeapInv, LockInv, PcInv, StepShape, CarryTyped, Without;
    RunInv(run, i);
    OnlyRelease(run[i], t, e, run[i + 1]);
    var s, o := run[i], run[i].threads[t].rest[0];
    assert CarryAt(s.spans, s.loc, t, s.threads[t]);
    assert o in Carry(s.threads[t]);
    LastMeansOne(s, o);
  }

  lemma LastMeansOne(s: State, o: Obj)
    requires DataInv(s) && o in s.loc && !s.loc[o].Free?
    ensures o.page in s.spans && (LastOneOut(s, o) <==> s.spans[o.page].refcount == 1)
  {
    hide Slots, Lists, HeapInv, Carried, SlotInv;
    if s.spans[o.page].refcount == 1 { AllReturned(s.cfg, s.spans, s.loc, o); }
    if LastOneOut(s, o) { OthersFree(s.cfg, s.spans, s.loc, o); }
  }

  /** With all objects but o on the free list, o is the one reference. */
  lemma OthersFree(g: Config, spans: map<nat, Span>, loc: map<Obj, Place>, o: Obj)
    requires Objects(g, spans, loc) && FreeLists(spans, loc) && RefInv(g, spans) && o in loc && !loc[o].Free?
    requires forall x :: x in loc && x.page == o.page && x != o ==> x in spans[o.page].objects
    ensures spans[o.page].refcount == 1
  {
    var sp := spans[o.page];
    var n := g.perSpan[sp.cl];
    var free, all := (set x | x in sp.objects), AllObjects(o.page, n);
    DistinctCount(sp.objects);
    assert o !in sp.objects;
    forall x | x in all - {o} ensures x in free { assert x in loc; }
    assert free == all - {o};
  }

  lemma OnlyFetch(s: State, t: nat, e: Event, s2: State)
    requires Next(s, t, e, s2) && s.threads[t].Fetch?
    ensures t in s.threads
    ensures var pc := s.threads[t];
            && pc.cl < |s.lists|
            && (s.lists[pc.cl].nonempty != [] ==> s.lists[pc.cl].nonempty[0] in s.spans)
            && s2 == DoFetch(s, t, pc)
  {
    hide DoTryCached, ClientChain, FreshPages, StepShape, DoInsert, DoShrink, DoAfterEvict, DoRelease, DoFetch,
         LinkSpan;
  }

  /** The rest of RemoveRange: while objects are missing, as many as are missing or there are come off the
      front of the first non-empty span; the page heap is asked once, and only with nothing in hand; else
      exactly what was gathered becomes the client's. */
  lemma FetchGoes(run: seq<State>, i: nat, t: nat, e: Event)
    requires IsRun(run) && i + 1 < |run| && Next(run[i], t, e, run[i + 1]) && run[i].threads[t].Fetch?
    ensures var s, s2, pc := run[i], run[i + 1], run[i].threads[t];
            && t in s2.threads && pc.cl < |s.lists| == |s2.lists|
            && var spans := s.lists[pc.cl].nonempty;
            if |pc.got| < pc.n && spans != [] then
              && spans[0] in s.spans && spans[0] in s2.spans && s2.threads[t].Fetch?
              && var objs, left, got := s.spans[spans[0]].objects, s2.spans[spans[0]].objects, s2.threads[t].got;
              var k := |got| - |pc.got|;
              && 0 <= k <= |objs| && got == objs[..k] + pc.got && left == objs[k..]
              && |got| <= pc.n && (|got| == pc.n || left == [])
            else if pc.got == [] && !pc.populated then s2.threads[t] == NewWait(pc.cl, pc.n) && s2.loc == s.loc
            else
              && s2.threads[t].Idle? && s2.loc.Keys == s.loc.Keys
              && forall o :: o in s.loc ==> s2.loc[o] == if o in pc.got then Client else s.loc[o]
  {
    hide IsRun, Next, TotalSlots, DataInv, LockInv, PcInv, StepShape;
    OnlyFetch(run[i], t, e, run[i + 1]);
    var s, s2, pc := run[i], run[i + 1], run[i].threads[t];
    if |pc.got| < pc.n && s.lists[pc.cl].nonempty != [] {
      var objs := s.spans[s.lists[pc.cl].nonempty[0]].objects;
      var k := Min(pc.n - |pc.got|, |objs|);
      assert objs[..k] + objs[k..] == objs;
      assert s2.threads[t].got == objs[..k] + pc.got;
    }
  }
}
