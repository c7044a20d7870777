/** What every step of the central free lists keeps. */
module CentralInvariant {
  import opened Basics
  import opened CentralState

  // ----- the parts of the invariant -----

  /** A lock's owner is the one thread whose program point holds it. */
  ghost predicate LockInv(owner: map<Lock, nat>, threads: map<nat, Pc>) {
    && (forall t :: t in threads && Held(threads[t]).Some? ==>
          Held(threads[t]).value in owner && owner[Held(threads[t]).value] == t)
    && (forall l :: l in owner ==> owner[l] in threads && Held(threads[owner[l]]) == Some(l))
  }

  ghost predicate SlotInv(g: Config, lists: seq<CentralList>) {
    && |lists| == |g.maxCache|
    && forall c :: 0 <= c < |lists| ==> |lists[c].slots| <= lists[c].cacheSize <= g.maxCache[c]
  }

  function SumCache(lists: seq<CentralList>): int {
    if lists == [] then 0 else lists[0].cacheSize + SumCache(lists[1..])
  }

  ghost function CreditSet(threads: map<nat, Pc>): set<nat> {
    set t | t in threads && Credit(threads[t])
  }

  /** Slots in use by caches plus slots taken from one cache and not yet given to another. */
  ghost function TotalSlots(s: State): int {
    SumCache(s.lists) + |CreditSet(s.threads)|
  }

  ghost predicate OfClass(spans: map<nat, Span>, xs: seq<Obj>, c: nat) {
    forall o :: o in xs ==> o.page in spans && spans[o.page].cl == c
  }

  ghost predicate CarryTyped(spans: map<nat, Span>, pc: Pc) {
    match pc
    case InsertWait(c, chain) => OfClass(spans, chain, c)
    case InsertHeld(c, chain) => OfClass(spans, chain, c)
    case Evict(c, chain, _) => OfClass(spans, chain, c)
    case ShrinkWait(c, chain, _, _) => OfClass(spans, chain, c)
    case ShrinkHeld(c, chain, _, _) => OfClass(spans, chain, c)
    case BackWait(c, chain, _, _) => OfClass(spans, chain, c)
    case Evicted(c, chain, _, _) => OfClass(spans, chain, c)
    case Release(c, rest, k) => OfClass(spans, rest, c) && ContTyped(spans, k)
    case DeleteWait(c, rest, k, _) => OfClass(spans, rest, c) && ContTyped(spans, k)
    case DeleteHeld(c, rest, k, _) => OfClass(spans, rest, c) && ContTyped(spans, k)
    case RelockWait(c, rest, k) => OfClass(spans, rest, c) && ContTyped(spans, k)
    case Fetch(c, _, got, _) => OfClass(spans, got, c)
    case _ => true
  }

  ghost predicate ContTyped(spans: map<nat, Span>, k: Cont) {
    k.Resume? ==> OfClass(spans, k.chain, k.cl)
  }

  /** The objects with a place are exactly the objects of the listed spans. */
  ghost predicate Objects(g: Config, spans: map<nat, Span>, loc: map<Obj, Place>) {
    && (forall p :: p in spans ==> 1 <= spans[p].cl < |g.perSpan|)
    && (forall o :: o in loc <==> o.page in spans && o.index < g.perSpan[spans[o.page].cl])
  }

  /** A span's free list holds exactly its objects whose place is Free, each once. */
  ghost predicate FreeLists(spans: map<nat, Span>, loc: map<Obj, Place>) {
    && (forall p :: p in spans ==> NoDup(spans[p].objects))
    && (forall p, o :: p in spans && o in spans[p].objects ==> o.page == p && o in loc && loc[o] == Free)
    && (forall o :: o in loc && loc[o] == Free ==> o.page in spans && o in spans[o.page].objects)
  }

  ghost predicate ChainAt(g: Config, spans: map<nat, Span>, loc: map<Obj, Place>, c: nat, i: nat, chain: seq<Obj>)
    requires c < |g.move|
  {
    && NoDup(chain) && |chain| == g.move[c] && OfClass(spans, chain, c)
    && (forall o :: o in chain ==> o in loc && loc[o] == Cached(c, i))
  }

  /** A transfer slot holds exactly the objects whose place is that slot. */
  ghost predicate Slots(g: Config, lists: seq<CentralList>, spans: map<nat, Span>, loc: map<Obj, Place>) {
    && |lists| == |g.move|
    && (forall c, i :: 0 <= c < |lists| && 0 <= i < |lists[c].slots| ==>
       ChainAt(g, spans, loc, c, i, lists[c].slots[i]))
    && (forall o :: o in loc && loc[o].Cached? ==>
          loc[o].cl < |lists| && loc[o].slot < |lists[loc[o].cl].slots| && o in lists[loc[o].cl].slots[loc[o].slot])
  }

  ghost predicate CarryAt(spans: map<nat, Span>, loc: map<Obj, Place>, t: nat, pc: Pc) {
    && NoDup(Carry(pc)) && CarryTyped(spans, pc)
    && (forall o :: o in Carry(pc) ==> o in loc && loc[o] == InTransit(t))
  }

  /** A thread carries exactly the objects whose place is "with that thread". */
  ghost predicate Carried(spans: map<nat, Span>, loc: map<Obj, Place>, threads: map<nat, Pc>) {
    && (forall t :: t in threads ==> CarryAt(spans, loc, t, threads[t]))
    && (forall o :: o in loc && loc[o].InTransit? ==> loc[o].tid in threads && o in Carry(threads[loc[o].tid]))
  }

  /** Free-list length plus refcount is the number of objects in the span. */
  ghost predicate RefInv(g: Config, spans: map<nat, Span>) {
    forall p :: p in spans ==>
      1 <= spans[p].cl < |g.perSpan| && spans[p].refcount + |spans[p].objects| == g.perSpan[spans[p].cl]
  }

  function SumFree(spans: map<nat, Span>, ps: seq<nat>): int {
    if ps == [] then 0 else (if ps[0] in spans then |spans[ps[0]].objects| else 0) + SumFree(spans, ps[1..])
  }

  ghost predicate ListInv(spans: map<nat, Span>, c: nat, l: CentralList) {
    && NoDup(l.nonempty) && NoDup(l.empty)
    && (forall p :: p in l.nonempty ==> p in spans && spans[p].cl == c && spans[p].objects != [])
    && (forall p :: p in l.empty ==> p in spans && spans[p].cl == c && spans[p].objects == [])
    && l.numSpans == |l.nonempty| + |l.empty|
    && l.counter == SumFree(spans, l.nonempty)
  }

  ghost predicate OnList(lists: seq<CentralList>, p: nat, sp: Span) {
    && sp.cl < |lists|
    && if sp.objects == [] then p in lists[sp.cl].empty else p in lists[sp.cl].nonempty
  }

  /** Every span is on the list of its class that its free list calls for; the counters agree. */
  ghost predicate Lists(lists: seq<CentralList>, spans: map<nat, Span>) {
    && (forall c :: 0 <= c < |lists| ==> ListInv(spans, c, lists[c]))
    && (forall p :: p in spans ==> OnList(lists, p, spans[p]))
  }

  /** The page heap's table: listed spans, and spans in the hands of one thread. */
  ghost predicate HeapInv(g: Config, spans: map<nat, Span>, heap: map<nat, HeapSpan>, threads: map<nat, Pc>) {
    && (forall p :: p in spans ==>
       spans[p].cl < |g.pages| && p in heap && heap[p] == HeapSpan(g.pages[spans[p].cl], Listed))
    && (forall p :: p in heap && heap[p].place.Listed? ==> p in spans)
    && (forall t :: t in threads && LimboSpan(threads[t]).Some? ==> LimboAt(g, heap, t, threads[t]))
    && (forall p :: p in heap && heap[p].place.Limbo? ==>
          heap[p].place.tid in threads && LimboSpan(threads[heap[p].place.tid]) == Some(p))
    && (forall p, q :: p in heap && q in heap && p < q ==> p + heap[p].length <= q)
  }

  ghost predicate LimboAt(g: Config, heap: map<nat, HeapSpan>, t: nat, pc: Pc)
    requires LimboSpan(pc).Some?
  {
    var p := LimboSpan(pc).value;
    && p in heap && heap[p].place == Limbo(t)
    && (pc.LinkWait? || pc.LinkHeld? ==> pc.cl < |g.pages| && heap[p].length == g.pages[pc.cl])
  }

  /** Everything about objects, spans and slots. */
  ghost predicate DataInv(s: State) {
    && SlotInv(s.cfg, s.lists)
    && Objects(s.cfg, s.spans, s.loc)
    && FreeLists(s.spans, s.loc)
    && Slots(s.cfg, s.lists, s.spans, s.loc)
    && Carried(s.spans, s.loc, s.threads)
    && RefInv(s.cfg, s.spans)
    && Lists(s.lists, s.spans)
    && HeapInv(s.cfg, s.spans, s.heap, s.threads)
  }

  ghost predicate Inv(s: State) {
    && ValidConfig(s.cfg)
    && LockInv(s.owner, s.threads)
    && (forall t :: t in s.threads ==> PcInv(s.cfg, s.threads[t]))
    && DataInv(s)
  }

  lemma InitialInv(s: State)
    requires Initial(s)
    ensures Inv(s) && CreditSet(s.threads) == {}
  {
  }

  // ----- locks and program points -----

  lemma CallInsertShape(s: State, t: nat, c: nat, chain: seq<Obj>, s2: State)
    requires Next(s, t, CallInsert(c, chain), s2) && |s.lists| == |s.cfg.move|
    ensures StepShape(s, t, s2)
  {
  }

  lemma TakeLockShape(s: State, t: nat, s2: State)
    requires Next(s, t, TakeLock, s2) && |s.lists| == |s.cfg.move|
    ensures StepShape(s, t, s2)
  {
  }

  lemma PassOverShape(s: State, t: nat, s2: State)
    requires Next(s, t, PassOver, s2) && |s.lists| == |s.cfg.move|
    ensures StepShape(s, t, s2)
  {
    hide ClientChain, FreshPages, DoInsert, DoShrink, DoAfterEvict, DoTryCached, DoRelease, DoFetch, LinkSpan;
  }

  lemma PickVictimShape(s: State, t: nat, v: nat, s2: State)
    requires Next(s, t, PickVictim(v), s2) && |s.lists| == |s.cfg.move|
    ensures StepShape(s, t, s2)
  {
  }

  lemma DeleteShape(s: State, t: nat, s2: State)
    requires Next(s, t, Delete, s2) && |s.lists| == |s.cfg.move|
    ensures StepShape(s, t, s2)
  {
  }

  lemma NewSpanShape(s: State, t: nat, p: nat, s2: State)
    requires Next(s, t, NewSpan(p), s2) && |s.lists| == |s.cfg.move|
    ensures StepShape(s, t, s2)
  {
  }

  lemma LinkShape(s: State, t: nat, s2: State)
    requires Next(s, t, Link, s2) && |s.lists| == |s.cfg.move|
    ensures StepShape(s, t, s2)
  {
  }

  lemma FetchNextShape(s: State, t: nat, s2: State)
    requires Next(s, t, FetchNext, s2) && |s.lists| == |s.cfg.move|
    ensures StepShape(s, t, s2)
  {
    hide ClientChain, FreshPages, DoInsert, DoShrink, DoAfterEvict, DoTryCached, DoRelease, LinkSpan, Moved;
  }

  lemma PlainShape(s: State, t: nat, e: Event, s2: State)
    requires Next(s, t, e, s2) && |s.lists| == |s.cfg.move| && (e.CallRemove? || e.NoMemory?)
    ensures StepShape(s, t, s2)
  {
    hide ClientChain, FreshPages, DoInsert, DoShrink, DoAfterEvict, DoTryCached, DoRelease, DoFetch, LinkSpan;
  }

  lemma ControlStep(s: State, t: nat, e: Event, s2: State)
    requires Next(s, t, e, s2) && |s.lists| == |s.cfg.move|
    ensures t in s.threads && StepShape(s, t, s2)
  {
    hide ClientChain, FreshPages, DoInsert, DoShrink, DoAfterEvict, DoTryCached, DoRelease, DoFetch, LinkSpan,
         StepShape;
    match e
    case CallInsert(c, chain) => CallInsertShape(s, t, c, chain, s2);
    case TakeLock => TakeLockShape(s, t, s2);
    case PassOver => PassOverShape(s, t, s2);
    case PickVictim(v) => PickVictimShape(s, t, v, s2);
    case Delete => DeleteShape(s, t, s2);
    case NewSpan(p) => NewSpanShape(s, t, p, s2);
    case Link => LinkShape(s, t, s2);
    case FetchNext => FetchNextShape(s, t, s2);
    case CallRemove(_, _) => PlainShape(s, t, e, s2);
    case NoMemory => PlainShape(s, t, e, s2);
    case _ =>
  }

  lemma LockStep(o: map<Lock, nat>, o2: map<Lock, nat>, threads: map<nat, Pc>, t: nat, pc2: Pc)
    requires LockInv(o, threads) && t in threads && OwnerStep(o, o2, t, Held(threads[t]), Held(pc2))
    ensures LockInv(o2, threads[t := pc2])
  {
  }
}
