/** What holds in every state of every run of the central free lists. */
module CentralRuns {
  import opened Basics
  import opened CentralState
  import opened CentralInvariant
  import opened CentralMoves
  import opened CentralSpans
  import opened CentralSteps

  // ----- every step keeps the invariant -----

  lemma Sizes(s: State)
    requires Inv(s)
    ensures |s.lists| == |s.cfg.perSpan| == |s.cfg.pages| == |s.cfg.move| == |s.cfg.maxCache|
    ensures forall c :: 1 <= c < |s.cfg.pages| ==> s.cfg.pages[c] >= 1
  {
  }

  /** Steps on the way into and out of the transfer cache. */
  lemma InsertSideData(s: State, t: nat, e: Event, s2: State)
    requires Inv(s) && Next(s, t, e, s2)
    requires e.CallInsert? || e.Insert? || e.PassOver? || e.PickVictim? || e.Shrink? || e.AfterEvict? || e.TryCached?
    ensures DataInv(s2)
  {
    hide DataInv, LockInv, StepShape, ValidConfig, DoInsert, DoShrink, DoAfterEvict, DoTryCached, EvictFailed, Moved,
         ClientChain;
    Sizes(s);
    match e
    case CallInsert(c, chain) => CallInsertData(s, t, c, chain);
    case Insert => InsertData(s, t);
    case PassOver => EvictFailedData(s, t);
    case PickVictim(v) => QuietData(s, t, s2.threads[t], s2.owner);
    case Shrink => ShrinkData(s, t);
    case AfterEvict => AfterEvictData(s, t);
    case TryCached => TryCachedData(s, t);
  }

  /** Steps that move objects to and from spans. */
  lemma SpanSideData(s: State, t: nat, e: Event, s2: State)
    requires Inv(s) && Next(s, t, e, s2) && (e.ReleaseNext? || e.FetchNext? || e.Link?)
    ensures DataInv(s2)
  {
    hide DataInv, LockInv, StepShape, ValidConfig, FreshPages, ClientChain, DoInsert, DoShrink, DoAfterEvict,
         DoTryCached,
         DoRelease, DoFetch, LinkSpan;
    Sizes(s);
    match e
    case ReleaseNext => ReleaseData(s, t);
    case FetchNext => FetchData(s, t);
    case Link =>
      var pc2 := Fetch(s.threads[t].cl, s.threads[t].n, [], true);
      if s.threads[t].span.None? { QuietData(s, t, pc2, s.owner); } else { LinkData(s, t, pc2); }
  }

  /** Steps that move spans to and from the page heap. */
  lemma HeapSideData(s: State, t: nat, e: Event, s2: State)
    requires Inv(s) && Next(s, t, e, s2) && (e.Delete? || e.NewSpan? || e.NoMemory?)
    ensures DataInv(s2)
  {
    hide DataInv, LockInv, StepShape, ValidConfig, FreshPages, ClientChain, DoInsert, DoShrink, DoAfterEvict,
         DoTryCached,
         DoRelease, DoFetch, LinkSpan;
    Sizes(s);
    match e
    case Delete => DeleteData(s, t, s2.threads[t], s2.owner);
    case NewSpan(p) => NewSpanData(s, t, p, s2.owner);
    case NoMemory => QuietData(s, t, s2.threads[t], s2.owner);
  }

  lemma WaitSideData(s: State, t: nat, e: Event, s2: State)
    requires Inv(s) && Next(s, t, e, s2) && (e.CallRemove? || e.TakeLock?)
    ensures DataInv(s2)
  {
    hide DataInv, LockInv, ValidConfig, Wants;
    if e.TakeLock? { QuietTakeLock(s.spans, s.threads[t]); }
    QuietData(s, t, s2.threads[t], s2.owner);
  }

  lemma StepInv(s: State, t: nat, e: Event, s2: State)
    requires Inv(s) && Next(s, t, e, s2)
    ensures t in s.threads && Inv(s2) && StepShape(s, t, s2)
  {
    hide DataInv, LockInv, ValidConfig, Next, Wants, OwnerStep, PcInv;
    Sizes(s);
    ControlStep(s, t, e, s2);
    LockStep(s.owner, s2.owner, s.threads, t, s2.threads[t]);
    if e.CallRemove? || e.TakeLock? {
      WaitSideData(s, t, e, s2);
    } else if e.ReleaseNext? || e.FetchNext? || e.Link? {
      SpanSideData(s, t, e, s2);
    } else if e.Delete? || e.NewSpan? || e.NoMemory? {
      HeapSideData(s, t, e, s2);
    } else {
      InsertSideData(s, t, e, s2);
    }
  }

  // ----- slots are only ever passed on or lost -----

  lemma {:induction false} SumCacheUpdate(lists: seq<CentralList>, c: nat, l2: CentralList)
    requires c < |lists|
    ensures SumCache(lists[c := l2]) == SumCache(lists) - lists[c].cacheSize + l2.cacheSize
  {
    if c == 0 {
      assert lists[0 := l2][1..] == lists[1..];
    } else {
      assert lists[c := l2][1..] == lists[1..][c - 1 := l2];
      SumCacheUpdate(lists[1..], c - 1, l2);
    }
  }

  function Owed(pc: Pc): int {
    if Credit(pc) then 1 else 0
  }

  lemma CreditUpdate(threads: map<nat, Pc>, t: nat, pc2: Pc)
    requires t in threads
    ensures |CreditSet(threads[t := pc2])| == |CreditSet(threads)| - Owed(threads[t]) + Owed(pc2)
  {
    hide Credit;
    var before, after := CreditSet(threads), CreditSet(threads[t := pc2]);
    if Credit(pc2) {
      assert after == before + {t};
    } else {
      assert after == before - {t};
    }
  }

  /** What changes in one cache and in the thread's credit changes in the total. */
  lemma Paid(s: State, t: nat, s2: State, c: nat)
    requires t in s.threads && t in s2.threads && s2.threads == s.threads[t := s2.threads[t]]
    requires c < |s.lists| == |s2.lists| && s2.lists == s.lists[c := s2.lists[c]]
    ensures TotalSlots(s2) == TotalSlots(s) + (s2.lists[c].cacheSize - s.lists[c].cacheSize)
                              + (Owed(s2.threads[t]) - Owed(s.threads[t]))
  {
    SumCacheUpdate(s.lists, c, s2.lists[c]);
    CreditUpdate(s.threads, t, s2.threads[t]);
  }

  lemma InsertPaid(s: State, t: nat, pc: Pc)
    requires t in s.threads && s.threads[t] == pc && pc.InsertHeld?
    requires pc.cl < |s.lists| && pc.cl < |s.cfg.move| && pc.cl < |s.cfg.maxCache|
    ensures TotalSlots(DoInsert(s, t, pc)) == TotalSlots(s)
  {
    hide StepShape, Moved, CreditSet, SumCache, TotalSlots;
    var s2 := DoInsert(s, t, pc);
    Paid(s, t, s2, pc.cl);
  }

  function SlotLost(s: State, t: nat, e: Event): nat
    requires t in s.threads
  {
    var pc := s.threads[t];
    if e.AfterEvict? && pc.Evicted? && pc.ok && pc.cl < |s.lists| && pc.cl < |s.cfg.maxCache|
       && s.lists[pc.cl].cacheSize >= s.cfg.maxCache[pc.cl] then 1 else 0
  }

  lemma AfterEvictPaid(s: State, t: nat, pc: Pc)
    requires t in s.threads && s.threads[t] == pc && pc.Evicted? && pc.cl < |s.lists| && pc.cl < |s.cfg.maxCache|
    ensures TotalSlots(DoAfterEvict(s, t, pc)) == TotalSlots(s) - SlotLost(s, t, AfterEvict)
  {
    hide StepShape, Moved, CreditSet, SumCache, TotalSlots;
    var s2 := DoAfterEvict(s, t, pc);
    Paid(s, t, s2, pc.cl);
  }

  lemma ShrinkPaid(s: State, t: nat, pc: Pc)
    requires t in s.threads && s.threads[t] == pc && pc.ShrinkHeld? && pc.victim < |s.lists|
    ensures TotalSlots(DoShrink(s, t, pc)) == TotalSlots(s)
  {
    hide StepShape, Moved, CreditSet, SumCache, TotalSlots;
    var s2 := DoShrink(s, t, pc);
    Paid(s, t, s2, pc.victim);
  }

  lemma TryCachedPaid(s: State, t: nat, pc: Pc)
    requires t in s.threads && s.threads[t] == pc && pc.RemoveHeld? && pc.cl < |s.lists| && pc.cl < |s.cfg.move|
    ensures TotalSlots(DoTryCached(s, t, pc)) == TotalSlots(s)
  {
    hide StepShape, Moved, CreditSet, SumCache, TotalSlots;
    var s2 := DoTryCached(s, t, pc);
    Paid(s, t, s2, pc.cl);
  }

  lemma ReleasePaid(s: State, t: nat, pc: Pc)
    requires t in s.threads && s.threads[t] == pc && pc.Release? && pc.cl < |s.lists| && pc.cl < |s.cfg.perSpan|
    requires pc.rest != [] ==> pc.rest[0].page in s.spans && pc.rest[0].page in s.heap
    ensures TotalSlots(DoRelease(s, t, pc)) == TotalSlots(s)
  {
    hide StepShape, Moved, CreditSet, SumCache, TotalSlots, Without;
    var s2 := DoRelease(s, t, pc);
    Paid(s, t, s2, pc.cl);
  }

  lemma FetchPaid(s: State, t: nat, pc: Pc)
    requires t in s.threads && s.threads[t] == pc && pc.Fetch? && pc.cl < |s.lists|
    requires s.lists[pc.cl].nonempty != [] ==> s.lists[pc.cl].nonempty[0] in s.spans
    ensures TotalSlots(DoFetch(s, t, pc)) == TotalSlots(s)
  {
    hide StepShape, Moved, CreditSet, SumCache, TotalSlots;
    var s2 := DoFetch(s, t, pc);
    Paid(s, t, s2, pc.cl);
  }

  lemma LinkPaid(s: State, t: nat, pc: Pc, pc2: Pc)
    requires t in s.threads && s.threads[t] == pc && pc.LinkHeld? && pc2.Fetch?
    requires pc.cl < |s.lists| && pc.cl < |s.cfg.perSpan| && pc.span.Some? && pc.span.value in s.heap
    ensures TotalSlots(LinkSpan(s, t, pc.cl, pc.span.value, pc2)) == TotalSlots(s)
  {
    hide CreditSet, SumCache, TotalSlots, Carved;
    var s2 := LinkSpan(s, t, pc.cl, pc.span.value, pc2);
    Paid(s, t, s2, pc.cl);
  }

  /** Where no list changes, neither does a cache. */
  lemma SameListsPaid(s: State, t: nat, s2: State)
    requires t in s.threads && t in s2.threads && s2.threads == s.threads[t := s2.threads[t]] && s2.lists == s.lists
    requires Owed(s2.threads[t]) == Owed(s.threads[t])
    ensures TotalSlots(s2) == TotalSlots(s)
  {
    hide CreditSet, SumCache;
    CreditUpdate(s.threads, t, s2.threads[t]);
  }

  lemma OtherEventPaid(s: State, t: nat, e: Event, s2: State)
    requires Next(s, t, e, s2)
    requires e.CallInsert? || e.CallRemove? || e.TakeLock? || e.PassOver? || e.PickVictim? || e.Delete?
             || e.NewSpan? || e.NoMemory?
    ensures TotalSlots(s2) == TotalSlots(s)
  {
    hide Moved, ClientChain, FreshPages, TotalSlots, DoInsert, DoShrink, DoAfterEvict, DoRelease, DoTryCached, DoFetch,
         LinkSpan;
    SameListsPaid(s, t, s2);
  }

  /** Cache slots, with those a thread has taken from one class and not yet given to another, are lost only
      where a thread comes back with one and finds its own cache at its maximum. */
  lemma StepPaid(s: State, t: nat, e: Event, s2: State)
    requires Next(s, t, e, s2)
    ensures TotalSlots(s2) == TotalSlots(s) - SlotLost(s, t, e)
  {
    hide StepShape, TotalSlots, ClientChain, FreshPages, DoInsert, DoShrink, DoAfterEvict, DoRelease, DoTryCached,
         DoFetch, LinkSpan;
    var pc := s.threads[t];
    match e
    case Insert => InsertPaid(s, t, pc);
    case AfterEvict => AfterEvictPaid(s, t, pc);
    case Shrink => ShrinkPaid(s, t, pc);
    case TryCached => TryCachedPaid(s, t, pc);
    case ReleaseNext => ReleasePaid(s, t, pc);
    case FetchNext => FetchPaid(s, t, pc);
    case Link =>
      var pc2 := Fetch(pc.cl, pc.n, [], true);
      if pc.span.Some? { LinkPaid(s, t, pc, pc2); } else { SameListsPaid(s, t, s2); }
    case _ => OtherEventPaid(s, t, e, s2);
  }

  /** The invariant holds all along every run, and slots never multiply. */
  lemma {:induction false} RunInv(run: seq<State>, i: nat)
    requires IsRun(run) && i < |run|
    ensures Inv(run[i]) && run[i].cfg == run[0].cfg && TotalSlots(run[i]) <= SumCache(run[0].lists)
  {
    hide Inv, Next, TotalSlots;
    if i == 0 {
      FirstState(run[0]);
    } else {
      RunInv(run, i - 1);
      assert CanStep(run[i - 1], run[i - 1 + 1]);
      var t, e :| Next(run[i - 1], t, e, run[i]);
      StepInv(run[i - 1], t, e, run[i]);
      StepPaid(run[i - 1], t, e, run[i]);
    }
  }

  lemma FirstState(s: State)
    requires Initial(s)
    ensures Inv(s) && TotalSlots(s) == SumCache(s.lists)
  {
    InitialInv(s);
  }

  // ----- the theorems -----

  ghost predicate OnFreeList(s: State, o: Obj) {
    o.page in s.spans && o in s.spans[o.page].objects
  }

  ghost predicate InSlot(s: State, o: Obj, c: nat, k: nat) {
    c < |s.lists| && k < |s.lists[c].slots| && o in s.lists[c].slots[k]
  }

  ghost predicate WithThread(s: State, o: Obj, t: nat) {
    t in s.threads && o in Carry(s.threads[t])
  }

  /** Object o belongs to a span that is on a central list. */
  ghost predicate LiveObject(s: State, o: Obj) {
    o.page in s.spans && s.spans[o.page].cl < |s.cfg.perSpan| && o.index < s.cfg.perSpan[s.spans[o.page].cl]
  }

  /** Every object of every live span is in exactly one place: its span's free list, one slot of
      one transfer cache, one thread's hands, or with the client; and no list holds it twice. */
  lemma OnePlace(run: seq<State>, i: nat, o: Obj)
    requires IsRun(run) && i < |run|
    ensures var s := run[i];
            && (LiveObject(s, o) <==> o in s.loc)
            && (OnFreeList(s, o) <==> o in s.loc && s.loc[o] == Free)
            && (forall c, k :: InSlot(s, o, c, k) <==> o in s.loc && s.loc[o] == Cached(c, k))
            && (forall t :: WithThread(s, o, t) <==> o in s.loc && s.loc[o] == InTransit(t))
    ensures forall p :: p in run[i].spans ==> NoDup(run[i].spans[p].objects)
    ensures forall c, k :: 0 <= c < |run[i].lists| && 0 <= k < |run[i].lists[c].slots| ==>
            NoDup(run[i].lists[c].slots[k])
    ensures forall t :: t in run[i].threads ==> NoDup(Carry(run[i].threads[t]))
  {
    hide IsRun, TotalSlots, RefInv, Lists, HeapInv, PcInv, LockInv, CarryTyped, Carry;
    RunInv(run, i);
    var s := run[i];
    forall c: nat, k: nat ensures InSlot(s, o, c, k) <==> o in s.loc && s.loc[o] == Cached(c, k) {
      if InSlot(s, o, c, k) { assert ChainAt(s.cfg, s.spans, s.loc, c, k, s.lists[c].slots[k]); }
    }
    forall t: nat ensures WithThread(s, o, t) <==> o in s.loc && s.loc[o] == InTransit(t) {
      if t in s.threads { assert CarryAt(s.spans, s.loc, t, s.threads[t]); }
    }
    forall c, k | 0 <= c < |s.lists| && 0 <= k < |s.lists[c].slots| ensures NoDup(s.lists[c].slots[k]) {
      assert ChainAt(s.cfg, s.spans, s.loc, c, k, s.lists[c].slots[k]);
    }
    forall t | t in s.threads ensures NoDup(Carry(s.threads[t])) {
      assert CarryAt(s.spans, s.loc, t, s.threads[t]);
    }
  }

  /** The transfer-cache bounds, for every class in every state, and the total never above its starting value,
      which is 16 slots a class or its maximum. */
  lemma SlotBounds(run: seq<State>, i: nat)
    requires IsRun(run) && i < |run|
    ensures |run[i].lists| == |run[i].cfg.maxCache|
    ensures forall c :: 0 <= c < |run[i].lists| ==>
              var l, max := run[i].lists[c], run[i].cfg.maxCache[c];
              0 <= |l.slots| <= l.cacheSize <= max <= MAX_TRANSFER_ENTRIES
    ensures SumCache(run[i].lists) <= SumCache(run[0].lists) <= 16 * |run[i].lists|
    ensures forall c :: 0 <= c < |run[i].lists| ==>
              c < |run[0].lists| && run[0].lists[c].cacheSize == Min(16, run[i].cfg.maxCache[c])
  {
    hide IsRun, PcInv, LockInv, Objects, FreeLists, Slots, Carried, RefInv, Lists, HeapInv, SumCache, CreditSet;
    RunInv(run, i);
    StartsInitial(run);
    SumAtMost(run[0].lists, 16);
  }

  lemma StartsInitial(run: seq<State>)
    requires IsRun(run)
    ensures |run[0].lists| == |run[0].cfg.maxCache|
    ensures forall c :: 0 <= c < |run[0].lists| ==> run[0].lists[c].cacheSize == Min(16, run[0].cfg.maxCache[c])
  {
  }

  lemma {:induction false} SumAtMost(lists: seq<CentralList>, n: nat)
    requires forall c :: 0 <= c < |lists| ==> lists[c].cacheSize <= n
    ensures SumCache(lists) <= n * |lists|
  {
    if lists != [] {
      SumAtMost(lists[1..], n);
      assert n * |lists| == n * |lists[1..]| + n;
    }
  }

  /** No thread owns two of the class and page-heap locks, and one that waits owns none. */
  lemma OneLock(run: seq<State>, i: nat, l: Lock, m: Lock)
    requires IsRun(run) && i < |run| && l in run[i].owner && m in run[i].owner && run[i].owner[l] == run[i].owner[m]
    ensures l == m && run[i].owner[l] in run[i].threads && Wants(run[i].threads[run[i].owner[l]]).None?
  {
    hide IsRun, DataInv, PcInv, TotalSlots, ValidConfig;
    RunInv(run, i);
  }

  ghost predicate SpanAccounted(s: State, p: nat, sp: Span) {
    && sp.cl < |s.lists| == |s.cfg.perSpan|
    && |sp.objects| + sp.refcount == s.cfg.perSpan[sp.cl]
    && (p in s.lists[sp.cl].nonempty <==> sp.objects != [])
    && (p in s.lists[sp.cl].empty <==> sp.objects == [])
  }

  /** Free-list accounting: what ReleaseToSpans divides by, what the counters count, and which
      list a span is on. */
  lemma Accounting(run: seq<State>, i: nat)
    requires IsRun(run) && i < |run|
    ensures var s := run[i];
            && (forall p :: p in s.spans ==> SpanAccounted(s, p, s.spans[p]))
            && (forall c :: 0 <= c < |s.lists| ==> ListInv(s.spans, c, s.lists[c]))
  {
    hide IsRun, PcInv, LockInv, Objects, FreeLists, Slots, Carried, HeapInv, SumFree, NoDup;
    RunInv(run, i);
    Sizes(run[i]);
    var s := run[i];
    forall p | p in s.spans ensures SpanAccounted(s, p, s.spans[p]) {
      assert ListInv(s.spans, s.spans[p].cl, s.lists[s.spans[p].cl]) && OnList(s.lists, p, s.spans[p]);
    }
  }

  lemma RetireFacts(s: State, t: nat, s2: State, p: nat)
    requires t in s.threads && s.threads[t].Release?
    requires Inv(s) && Next(s, t, ReleaseNext, s2) && p in s.spans && p !in s2.spans
    ensures s.threads[t].rest != [] && s.threads[t].rest[0].page == p && s.spans[p].refcount == 1
  {
    hide DataInv, LockInv, ValidConfig, PcInv, StepShape, Without;
  }

  /** A span leaves its list, for the page heap, only in ReleaseToSpans, and only when every
      object but the one being returned is on its free list: none is cached, carried by another
      thread or with the client. */
  lemma SpanLeavesWhole(run: seq<State>, i: nat, t: nat, e: Event, p: nat)
    requires IsRun(run) && i + 1 < |run| && Next(run[i], t, e, run[i + 1])
    requires p in run[i].spans && p !in run[i + 1].spans
    ensures e == ReleaseNext && run[i].threads[t].rest != []
    ensures forall o :: LiveObject(run[i], o) && o.page == p && o != run[i].threads[t].rest[0] ==> OnFreeList(run[i], o)
    ensures p in run[i + 1].heap && run[i + 1].heap[p].place == Limbo(t)
  {
    hide IsRun, Next, TotalSlots, Slots, Lists, HeapInv, LockInv, PcInv, CarryTyped;
    var s, s2 := run[i], run[i + 1];
    RunInv(run, i);
    OnlyReleaseRetires(s, t, e, s2, p);
    RetireFacts(s, t, s2, p);
    var o := s.threads[t].rest[0];
    assert CarryAt(s.spans, s.loc, t, s.threads[t]);
    assert o in Carry(s.threads[t]);
    AllReturned(s.cfg, s.spans, s.loc, o);
  }

  lemma OnlyReleaseRetires(s: State, t: nat, e: Event, s2: State, p: nat)
    requires Inv(s) && Next(s, t, e, s2) && p in s.spans && p !in s2.spans
    ensures t in s.threads && s.threads[t].Release? && e == ReleaseNext && p in s2.heap && s2.heap[p].place == Limbo(t)
  {
    hide Inv, StepShape, PcInv, Without, Moved, ClientChain, FreshPages;
  }

  /** What RemoveRange is about to return. */
  function Returned(s: State, pc: Pc): seq<Obj>
    requires pc.RemoveHeld? ==> pc.cl < |s.lists| && |s.lists[pc.cl].slots| > 0
  {
    if pc.RemoveHeld? then s.lists[pc.cl].slots[|s.lists[pc.cl].slots| - 1] else if pc.Fetch? then pc.got else []
  }

  lemma ReturnFacts(s: State, t: nat, e: Event, s2: State)
    requires t in s.threads && t in s2.threads && (s.threads[t].RemoveHeld? || s.threads[t].Fetch?)
    requires s2.threads[t].Idle?
    requires Inv(s) && Next(s, t, e, s2)
    ensures var pc := s.threads[t];
            && pc.cl < |s.lists| == |s.cfg.move| && pc.n > 0
            && (pc.RemoveHeld? ==> |s.lists[pc.cl].slots| > 0 && pc.n == s.cfg.move[pc.cl])
            && (pc.Fetch? ==> |pc.got| <= pc.n && (|pc.got| < pc.n ==> s.lists[pc.cl].nonempty == []))
            && (pc.Fetch? && pc.got == [] ==> pc.populated)
            && s2.loc == Moved(s.loc, Returned(s, pc), Client)
  {
    hide DataInv, LockInv, ValidConfig, StepShape, Moved;
    Sizes(s);
    assert PcInv(s.cfg, s.threads[t]);
  }

  /** RemoveRange(N) returns at most N distinct objects of its class, none of them with the
      client before and all of them after; nothing else changes hands. It returns fewer than N
      only when the class has no free object left, and none only after the page heap was asked. */
  lemma RemoveRangeReturns(run: seq<State>, i: nat, t: nat, e: Event)
    requires IsRun(run) && i + 1 < |run| && Next(run[i], t, e, run[i + 1])
    requires t in run[i].threads && (run[i].threads[t].RemoveHeld? || run[i].threads[t].Fetch?)
    requires t in run[i + 1].threads && run[i + 1].threads[t].Idle?
    ensures var s, s2, pc := run[i], run[i + 1], run[i].threads[t];
            && (pc.RemoveHeld? ==> pc.cl < |s.lists| && |s.lists[pc.cl].slots| > 0)
            && var chain := Returned(s, pc);
            && NoDup(chain) && OfClass(s.spans, chain, pc.cl)
            && (pc.RemoveHeld? ==> |chain| == pc.n)
            && (pc.Fetch? ==> |chain| <= pc.n && (|chain| < pc.n ==> s.lists[pc.cl].nonempty == []))
            && (chain == [] ==> pc.Fetch? && pc.populated)
            && (forall o :: o in chain ==> o in s.loc && s.loc[o] != Client && s2.loc[o] == Client)
            && (forall o :: o in s.loc && o !in chain ==> s2.loc[o] == s.loc[o])
  {
    hide IsRun, Next, TotalSlots, FreeLists, Lists, HeapInv, LockInv, PcInv, RefInv, StepShape;
    var s, s2, pc := run[i], run[i + 1], run[i].threads[t];
    RunInv(run, i);
    ReturnFacts(s, t, e, s2);
    assert CarryAt(s.spans, s.loc, t, pc);
    if pc.RemoveHeld? {
      var k := |s.lists[pc.cl].slots| - 1;
      assert ChainAt(s.cfg, s.spans, s.loc, pc.cl, k, s.lists[pc.cl].slots[k]);
    }
  }

  // ----- no thread gets stuck -----

  /** What a thread holding a lock does next. */
  function HolderEvent(pc: Pc): Event {
    match pc
    case InsertHeld(_, _) => Insert
    case Evict(_, _, _) => PassOver
    case ShrinkHeld(_, _, _, _) => Shrink
    case Evicted(_, _, _, _) => AfterEvict
    case Release(_, _, _) => ReleaseNext
    case DeleteHeld(_, _, _, _) => Delete
    case RemoveHeld(_, _) => TryCached
    case Fetch(_, _, _, _) => FetchNext
    case NewHeld(_, _) => NoMemory
    case LinkHeld(_, _, _) => Link
    case _ => TakeLock
  }

  lemma CacheHolderMoves(s: State, t: nat) returns (s2: State)
    requires Inv(s) && t in s.threads
    requires var pc := s.threads[t];
             pc.InsertHeld? || pc.Evict? || pc.ShrinkHeld? || pc.Evicted? || pc.RemoveHeld? || pc.NewHeld?
    ensures Next(s, t, HolderEvent(s.threads[t]), s2)
  {
    hide DataInv, LockInv, StepShape, DoInsert, DoShrink, DoAfterEvict, DoTryCached, ValidConfig, EvictFailed;
    Sizes(s);
    var pc := s.threads[t];
    assert PcInv(s.cfg, pc);
    match pc
    case InsertHeld(_, _) => s2 := DoInsert(s, t, pc);
    case Evict(_, _, _) => s2 := EvictFailed(s, t, pc.cl, pc.chain, pc.force);
    case ShrinkHeld(_, _, _, _) => s2 := DoShrink(s, t, pc);
    case Evicted(_, _, _, _) => s2 := DoAfterEvict(s, t, pc);
    case RemoveHeld(_, _) => s2 := DoTryCached(s, t, pc);
    case NewHeld(_, _) => s2 := Unlocked(s, t, HeapLock, LinkWait(pc.cl, pc.n, None));
  }

  lemma ReleaseHolderMoves(s: State, t: nat) returns (s2: State)
    requires Inv(s) && t in s.threads && (s.threads[t].Release? || s.threads[t].DeleteHeld?)
    ensures Next(s, t, HolderEvent(s.threads[t]), s2)
  {
    hide Slots, Objects, FreeLists, RefInv, Lists, LockInv, StepShape, DoRelease, DoFetch, LinkSpan, ValidConfig;
    Sizes(s);
    var pc := s.threads[t];
    assert PcInv(s.cfg, pc);
    assert CarryAt(s.spans, s.loc, t, pc);
    if pc.Release? {
      assert pc.rest != [] ==> pc.rest[0] in pc.rest;
      s2 := DoRelease(s, t, pc);
    } else {
      s2 := Unlocked(s.(heap := s.heap - {pc.page}), t, HeapLock, RelockWait(pc.cl, pc.rest, pc.cont));
    }
  }

  lemma FetchHolderMoves(s: State, t: nat) returns (s2: State)
    requires Inv(s) && t in s.threads && (s.threads[t].Fetch? || s.threads[t].LinkHeld?)
    ensures Next(s, t, HolderEvent(s.threads[t]), s2)
  {
    hide Slots, Objects, FreeLists, RefInv, Lists, LockInv, StepShape, DoRelease, DoFetch, LinkSpan, ValidConfig;
    Sizes(s);
    var pc := s.threads[t];
    assert PcInv(s.cfg, pc);
    if pc.Fetch? {
      FrontOfList(s, pc.cl);
      s2 := DoFetch(s, t, pc);
    } else if pc.span.None? {
      s2 := Goto(s, t, Fetch(pc.cl, pc.n, [], true));
    } else {
      assert LimboAt(s.cfg, s.heap, t, pc);
      s2 := LinkSpan(s, t, pc.cl, pc.span.value, Fetch(pc.cl, pc.n, [], true));
    }
  }

  /** Everything the code takes for granted at a step that holds a lock is so. */
  lemma HolderMoves(s: State, t: nat) returns (s2: State)
    requires Inv(s) && t in s.threads && Held(s.threads[t]).Some?
    ensures Next(s, t, HolderEvent(s.threads[t]), s2)
  {
    hide Inv, Next, HolderEvent;
    var pc := s.threads[t];
    if pc.Release? || pc.DeleteHeld? {
      s2 := ReleaseHolderMoves(s, t);
    } else if pc.Fetch? || pc.LinkHeld? {
      s2 := FetchHolderMoves(s, t);
    } else {
      s2 := CacheHolderMoves(s, t);
    }
  }

  /** In every state of a run in which some thread is inside an operation, some thread inside an
      operation can take its next step: the locks never deadlock. */
  lemma NeverStuck(run: seq<State>, i: nat, t: nat) returns (u: nat, e: Event, s2: State)
    requires IsRun(run) && i < |run| && t in run[i].threads && !run[i].threads[t].Idle?
    ensures u in run[i].threads && !run[i].threads[u].Idle? && Next(run[i], u, e, s2)
  {
    hide IsRun, DataInv, PcInv, TotalSlots, ValidConfig;
    RunInv(run, i);
    var s, pc := run[i], run[i].threads[t];
    if Held(pc).Some? {
      u, e := t, HolderEvent(pc);
      s2 := HolderMoves(s, t);
    } else if Wants(pc).value.0 in s.owner {
      u := s.owner[Wants(pc).value.0];
      e := HolderEvent(s.threads[u]);
      s2 := HolderMoves(s, u);
    } else {
      u, e, s2 := t, TakeLock, Locked(s, t, Wants(pc).value.0, Wants(pc).value.1);
    }
  }
}
