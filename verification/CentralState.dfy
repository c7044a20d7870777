/** The shared state of tcmalloc's central free lists and the steps threads take on it.
    A step is what one thread does between two lock operations, so a run of steps is a run of
    the real code under any interleaving of its critical sections. */
module CentralState {
  import opened Basics

  const MAX_TRANSFER_ENTRIES := 64
  const INITIAL_CACHE := 16

  /** What the size map says of each class: objects in one span, pages of one span, objects
      moved in one transfer. Class 0 holds no objects; only its cache slots can be stolen. */
  datatype Config = Config(perSpan: seq<nat>, pages: seq<nat>, move: seq<nat>, maxCache: seq<nat>)

  ghost predicate ValidConfig(g: Config) {
    && |g.perSpan| == |g.pages| == |g.move| == |g.maxCache| >= 1
    && (forall c :: 1 <= c < |g.perSpan| ==> g.perSpan[c] >= 1 && g.pages[c] >= 1 && g.move[c] >= 1)
    && (forall c :: 0 <= c < |g.maxCache| ==> g.maxCache[c] <= MAX_TRANSFER_ENTRIES)
  }

  /** An object is named by the first page of its span and its position in that span. */
  datatype Obj = Obj(page: nat, index: nat)

  datatype Span = Span(cl: nat, objects: seq<Obj>, refcount: int)

  /** `slots` is the used prefix of tc_slots_, so used_slots_ is |slots|. */
  datatype CentralList = CentralList(nonempty: seq<nat>, empty: seq<nat>, numSpans: int, counter: int,
                                     slots: seq<seq<Obj>>, cacheSize: int)

  datatype Lock = ClassLock(cl: nat) | HeapLock

  /** Where an object is, and where a span handed out by the page heap is. */
  datatype Place = Free | Cached(cl: nat, slot: nat) | Client | InTransit(tid: nat)
  datatype SpanPlace = Listed | Limbo(tid: nat)
  datatype HeapSpan = HeapSpan(length: nat, place: SpanPlace)

  /** What ReleaseListToSpans returns to: the end of InsertRange, or ShrinkCache called for `cl`. */
  datatype Cont = Finish | Resume(cl: nat, chain: seq<Obj>, force: bool)

  /** Where a thread is. "Wait" states hold no lock and wait for one. */
  datatype Pc =
    | Idle
    | InsertWait(cl: nat, chain: seq<Obj>)
    | InsertHeld(cl: nat, chain: seq<Obj>)
    | Evict(cl: nat, chain: seq<Obj>, force: bool)
    | ShrinkWait(cl: nat, chain: seq<Obj>, force: bool, victim: nat)
    | ShrinkHeld(cl: nat, chain: seq<Obj>, force: bool, victim: nat)
    | BackWait(cl: nat, chain: seq<Obj>, force: bool, ok: bool)
    | Evicted(cl: nat, chain: seq<Obj>, force: bool, ok: bool)
    | Release(cl: nat, rest: seq<Obj>, cont: Cont)
    | DeleteWait(cl: nat, rest: seq<Obj>, cont: Cont, page: nat)
    | DeleteHeld(cl: nat, rest: seq<Obj>, cont: Cont, page: nat)
    | RelockWait(cl: nat, rest: seq<Obj>, cont: Cont)
    | RemoveWait(cl: nat, n: nat)
    | RemoveHeld(cl: nat, n: nat)
    | Fetch(cl: nat, n: nat, got: seq<Obj>, populated: bool)
    | NewWait(cl: nat, n: nat)
    | NewHeld(cl: nat, n: nat)
    | LinkWait(cl: nat, n: nat, span: Option<nat>)
    | LinkHeld(cl: nat, n: nat, span: Option<nat>)

  /** `loc` is the place of every object of every span on a central list, `heap` the page heap's
      table of spans it has handed out. */
  datatype State = State(cfg: Config, lists: seq<CentralList>, spans: map<nat, Span>, heap: map<nat, HeapSpan>,
                         loc: map<Obj, Place>, owner: map<Lock, nat>, threads: map<nat, Pc>)

  function Held(pc: Pc): Option<Lock> {
    match pc
    case InsertHeld(c, _) => Some(ClassLock(c))
    case Evict(c, _, _) => Some(ClassLock(c))
    case ShrinkHeld(_, _, _, v) => Some(ClassLock(v))
    case Evicted(c, _, _, _) => Some(ClassLock(c))
    case Release(c, _, _) => Some(ClassLock(c))
    case DeleteHeld(_, _, _, _) => Some(HeapLock)
    case RemoveHeld(c, _) => Some(ClassLock(c))
    case Fetch(c, _, _, _) => Some(ClassLock(c))
    case NewHeld(_, _) => Some(HeapLock)
    case LinkHeld(c, _, _) => Some(ClassLock(c))
    case _ => None
  }

  /** The lock a waiting thread wants, and where it goes once it has it. */
  function Wants(pc: Pc): Option<(Lock, Pc)> {
    match pc
    case InsertWait(c, chain) => Some((ClassLock(c), InsertHeld(c, chain)))
    case ShrinkWait(c, chain, f, v) => Some((ClassLock(v), ShrinkHeld(c, chain, f, v)))
    case BackWait(c, chain, f, ok) => Some((ClassLock(c), Evicted(c, chain, f, ok)))
    case DeleteWait(c, rest, k, p) => Some((HeapLock, DeleteHeld(c, rest, k, p)))
    case RelockWait(c, rest, k) => Some((ClassLock(c), Release(c, rest, k)))
    case RemoveWait(c, n) => Some((ClassLock(c), RemoveHeld(c, n)))
    case NewWait(c, n) => Some((HeapLock, NewHeld(c, n)))
    case LinkWait(c, n, p) => Some((ClassLock(c), LinkHeld(c, n, p)))
    case _ => None
  }

  /** Objects a thread is carrying between places, by the class they belong to. */
  function ContChain(k: Cont): seq<Obj> {
    if k.Resume? then k.chain else []
  }

  function Carry(pc: Pc): seq<Obj> {
    match pc
    case InsertWait(_, chain) => chain
    case InsertHeld(_, chain) => chain
    case Evict(_, chain, _) => chain
    case ShrinkWait(_, chain, _, _) => chain
    case ShrinkHeld(_, chain, _, _) => chain
    case BackWait(_, chain, _, _) => chain
    case Evicted(_, chain, _, _) => chain
    case Release(_, rest, k) => rest + ContChain(k)
    case DeleteWait(_, rest, k, _) => rest + ContChain(k)
    case DeleteHeld(_, rest, k, _) => rest + ContChain(k)
    case RelockWait(_, rest, k) => rest + ContChain(k)
    case Fetch(_, _, got, _) => got
    case _ => []
  }

  /** A span a thread holds that is on no list: just allocated, or about to be deleted. */
  function LimboSpan(pc: Pc): Option<nat> {
    match pc
    case DeleteWait(_, _, _, p) => Some(p)
    case DeleteHeld(_, _, _, p) => Some(p)
    case LinkWait(_, _, p) => p
    case LinkHeld(_, _, p) => p
    case _ => None
  }

  /** The thread has shrunk some cache by one slot and not yet used or dropped that slot. */
  predicate Credit(pc: Pc) {
    match pc
    case Release(_, _, k) => k.Resume?
    case DeleteWait(_, _, k, _) => k.Resume?
    case DeleteHeld(_, _, k, _) => k.Resume?
    case RelockWait(_, _, k) => k.Resume?
    case BackWait(_, _, _, ok) => ok
    case Evicted(_, _, _, ok) => ok
    case _ => false
  }

  /** Class numbers are in range, and chains on their way to the cache have the transfer length. */
  ghost predicate PcInv(g: Config, pc: Pc) {
    var n := |g.move|;
    match pc
    case Idle => true
    case InsertWait(c, chain) => 1 <= c < n
    case InsertHeld(c, chain) => 1 <= c < n
    case Evict(c, chain, _) => 1 <= c < n && |chain| == g.move[c]
    case ShrinkWait(c, chain, _, v) => 1 <= c < n && |chain| == g.move[c] && v < n
    case ShrinkHeld(c, chain, _, v) => 1 <= c < n && |chain| == g.move[c] && v < n
    case BackWait(c, chain, _, _) => 1 <= c < n && |chain| == g.move[c]
    case Evicted(c, chain, _, _) => 1 <= c < n && |chain| == g.move[c]
    case Release(c, _, k) => 0 <= c < n && ContInv(g, k)
    case DeleteWait(c, _, k, _) => 0 <= c < n && ContInv(g, k)
    case DeleteHeld(c, _, k, _) => 0 <= c < n && ContInv(g, k)
    case RelockWait(c, _, k) => 0 <= c < n && ContInv(g, k)
    case RemoveWait(c, m) => 1 <= c < n && m > 0
    case RemoveHeld(c, m) => 1 <= c < n && m > 0
    case Fetch(c, m, got, _) => 1 <= c < n && m > 0 && |got| <= m
    case NewWait(c, m) => 1 <= c < n && m > 0
    case NewHeld(c, m) => 1 <= c < n && m > 0
    case LinkWait(c, m, _) => 1 <= c < n && m > 0
    case LinkHeld(c, m, _) => 1 <= c < n && m > 0
  }

  ghost predicate ContInv(g: Config, k: Cont) {
    k.Resume? ==> 1 <= k.cl < |g.move| && |k.chain| == g.move[k.cl]
  }

  /** A step keeps its lock, takes one while holding none, or gives its one up. */
  ghost predicate OwnerStep(o: map<Lock, nat>, o2: map<Lock, nat>, t: nat, h: Option<Lock>, h2: Option<Lock>) {
    || (h == h2 && o2 == o)
    || (h.None? && h2.Some? && h2.value !in o && o2 == o[h2.value := t])
    || (h.Some? && h2.None? && o2 == o - {h.value})
  }

  /** What every step has in common. */
  ghost predicate StepShape(s: State, t: nat, s2: State)
    requires t in s.threads
  {
    && s2.cfg == s.cfg && t in s2.threads && s2.threads == s.threads[t := s2.threads[t]]
    && OwnerStep(s.owner, s2.owner, t, Held(s.threads[t]), Held(s2.threads[t]))
    && (PcInv(s.cfg, s.threads[t]) ==> PcInv(s.cfg, s2.threads[t]))
  }

  // ----- steps -----

  /** What a thread may do next. The arguments are what the outside decides: the call made, the
      class picked by the racy counter, whether the unlocked look at the victim gave up, and
      what the page heap returns. */
  datatype Event =
    | CallInsert(cl: nat, chain: seq<Obj>)
    | CallRemove(cl: nat, n: nat)
    | TakeLock
    | Insert
    | PassOver
    | PickVictim(victim: nat)
    | Shrink
    | AfterEvict
    | ReleaseNext
    | Delete
    | TryCached
    | FetchNext
    | NewSpan(page: nat)
    | NoMemory
    | Link

  function Locked(s: State, t: nat, l: Lock, pc: Pc): State {
    s.(owner := s.owner[l := t], threads := s.threads[t := pc])
  }

  function Goto(s: State, t: nat, pc: Pc): State {
    s.(threads := s.threads[t := pc])
  }

  /** Moves on and gives up the lock held. */
  function Unlocked(s: State, t: nat, l: Lock, pc: Pc): State {
    s.(owner := s.owner - {l}, threads := s.threads[t := pc])
  }

  function Moved(loc: map<Obj, Place>, xs: seq<Obj>, to: Place): map<Obj, Place> {
    map o | o in loc :: if o in xs then to else loc[o]
  }

  /** A chain goes into the next free transfer slot. */
  function PushSlot(s: State, t: nat, c: nat, chain: seq<Obj>, size: int): State
    requires c < |s.lists|
  {
    var l := s.lists[c];
    s.(lists := s.lists[c := l.(slots := l.slots + [chain], cacheSize := size)],
    loc := Moved(s.loc, chain, Cached(c, |l.slots|)),
    owner := s.owner - {ClassLock(c)},
    threads := s.threads[t := Idle])
  }

  function PopSlot(l: CentralList): CentralList
    requires |l.slots| > 0
  {
    l.(slots := l.slots[..|l.slots| - 1])
  }

  /** ReleaseToSpans when other objects of the span are still out. */
  function PutBack(s: State, t: nat, c: nat, o: Obj, pc: Pc): State
    requires c < |s.lists| && o.page in s.spans
  {
    var l, sp := s.lists[c], s.spans[o.page];
    var l1 := if sp.objects == [] then
                l.(empty := Without(l.empty, o.page), nonempty := [o.page] + l.nonempty, counter := l.counter + 1)
              else l.(counter := l.counter + 1);
    s.(lists := s.lists[c := l1],
    spans := s.spans[o.page := sp.(objects := [o] + sp.objects, refcount := sp.refcount - 1)],
    loc := s.loc[o := Free],
    threads := s.threads[t := pc])
  }

  /** ReleaseToSpans when this was the last object out: the span leaves the list, and the lock
      is dropped for the call to the page heap. */
  function Retire(s: State, t: nat, c: nat, o: Obj, pc: Pc): State
    requires c < |s.lists| && c < |s.cfg.perSpan| && o.page in s.spans && o.page in s.heap
  {
    var l, p := s.lists[c], o.page;
    s.(lists := s.lists[c := l.(nonempty := Without(l.nonempty, p), empty := Without(l.empty, p),
                                counter := l.counter + 1 - s.cfg.perSpan[c], numSpans := l.numSpans - 1)],
    spans := s.spans - {p},
    heap := s.heap[p := s.heap[p].(place := Limbo(t))],
    loc := map x | x in s.loc && x.page != p :: s.loc[x],
    owner := s.owner - {ClassLock(c)},
    threads := s.threads[t := pc])
  }

  /** FetchFromOneSpans: up to the missing number of objects off the front of the first
      non-empty span, put in front of what the thread has already. */
  function FetchOne(s: State, t: nat, pc: Pc): State
    requires pc.Fetch? && pc.cl < |s.lists| && |pc.got| < pc.n
    requires s.lists[pc.cl].nonempty != [] && s.lists[pc.cl].nonempty[0] in s.spans
  {
    var l := s.lists[pc.cl];
    var p := l.nonempty[0];
    var sp := s.spans[p];
    var k := Min(pc.n - |pc.got|, |sp.objects|);
    var left := sp.objects[k..];
    var l1 := if left == [] then l.(nonempty := l.nonempty[1..], empty := [p] + l.empty, counter := l.counter - k)
              else l.(counter := l.counter - k);
    s.(lists := s.lists[pc.cl := l1],
    spans := s.spans[p := sp.(objects := left, refcount := sp.refcount + k)],
    loc := Moved(s.loc, sp.objects[..k], InTransit(t)),
    threads := s.threads[t := Fetch(pc.cl, pc.n, sp.objects[..k] + pc.got, pc.populated)])
  }

  /** The objects Populate carves a span into, in address order. */
  function Carved(p: nat, n: nat): (r: seq<Obj>)
    ensures |r| == n
    ensures forall i :: 0 <= i < n ==> r[i] == Obj(p, i)
  {
    seq(n, i requires 0 <= i => Obj(p, i))
  }

  function LinkSpan(s: State, t: nat, c: nat, p: nat, pc: Pc): State
    requires c < |s.lists| && c < |s.cfg.perSpan| && p in s.heap
  {
    var l := s.lists[c];
    var objs := Carved(p, s.cfg.perSpan[c]);
    s.(lists := s.lists[c := l.(nonempty := [p] + l.nonempty, numSpans := l.numSpans + 1,
      counter := l.counter + |objs|)],
    spans := s.spans[p := Span(c, objs, 0)],
    heap := s.heap[p := s.heap[p].(place := Listed)],
    loc := s.loc + (map o | o in objs :: Free),
    threads := s.threads[t := pc])
  }

  /** The class asked for exists and the chain is a range of its objects the client holds. */
  ghost predicate ClientChain(s: State, c: nat, chain: seq<Obj>) {
    && 1 <= c < |s.lists| && chain != [] && NoDup(chain)
    && forall o :: o in chain ==> o in s.loc && s.loc[o] == Client && o.page in s.spans && s.spans[o.page].cl == c
  }

  /** The page heap returns a run of pages that overlaps no span it has handed out. */
  ghost predicate FreshPages(s: State, p: nat, len: nat) {
    p !in s.heap && forall q :: q in s.heap ==> q + s.heap[q].length <= p || p + len <= q
  }

  /** InsertRange on entry, and MakeCacheSpace up to its first eviction attempt. */
  function DoInsert(s: State, t: nat, pc: Pc): (r: State)
    requires t in s.threads && s.threads[t] == pc
    requires pc.InsertHeld? && pc.cl < |s.lists| && pc.cl < |s.cfg.move| && pc.cl < |s.cfg.maxCache|
    ensures StepShape(s, t, r)
  {
    var c, l := pc.cl, s.lists[pc.cl];
    if |pc.chain| != s.cfg.move[c] then Goto(s, t, Release(c, pc.chain, Finish))
    else if |l.slots| < l.cacheSize then PushSlot(s, t, c, pc.chain, l.cacheSize)
    else if l.cacheSize == s.cfg.maxCache[c] then Goto(s, t, Release(c, pc.chain, Finish))
    else Goto(s, t, Evict(c, pc.chain, false))
  }

  /** An eviction attempt that failed: try again with force, or give up on the cache. */
  function EvictFailed(s: State, t: nat, c: nat, chain: seq<Obj>, force: bool): State {
    if force then Goto(s, t, Release(c, chain, Finish)) else Goto(s, t, Evict(c, chain, true))
  }

  function DoAfterEvict(s: State, t: nat, pc: Pc): (r: State)
    requires t in s.threads && s.threads[t] == pc
    requires pc.Evicted? && pc.cl < |s.lists| && pc.cl < |s.cfg.maxCache|
    ensures StepShape(s, t, r)
  {
    var c, l := pc.cl, s.lists[pc.cl];
    if !pc.ok then EvictFailed(s, t, c, pc.chain, pc.force)
    else if l.cacheSize < s.cfg.maxCache[c] then PushSlot(s, t, c, pc.chain, l.cacheSize + 1)
    else Goto(s, t, Release(c, pc.chain, Finish))
  }

  /** ShrinkCache once it holds the victim's lock. */
  function DoShrink(s: State, t: nat, pc: Pc): (r: State)
    requires t in s.threads && s.threads[t] == pc
    requires pc.ShrinkHeld? && pc.victim < |s.lists|
    ensures StepShape(s, t, r)
  {
    var v, l := pc.victim, s.lists[pc.victim];
    if l.cacheSize == 0 then Unlocked(s, t, ClassLock(v), BackWait(pc.cl, pc.chain, pc.force, false))
    else if |l.slots| == l.cacheSize then
      if !pc.force then Unlocked(s, t, ClassLock(v), BackWait(pc.cl, pc.chain, pc.force, false))
      else
        var popped := l.slots[|l.slots| - 1];
        s.(lists := s.lists[v := PopSlot(l).(cacheSize := l.cacheSize - 1)],
        loc := Moved(s.loc, popped, InTransit(t)),
        threads := s.threads[t := Release(v, popped, Resume(pc.cl, pc.chain, pc.force))])
    else
      Unlocked(s.(lists := s.lists[v := l.(cacheSize := l.cacheSize - 1)]), t, ClassLock(v),
               BackWait(pc.cl, pc.chain, pc.force, true))
  }

  function DoRelease(s: State, t: nat, pc: Pc): (r: State)
    requires t in s.threads && s.threads[t] == pc
    requires pc.Release? && pc.cl < |s.lists| && pc.cl < |s.cfg.perSpan|
    requires pc.rest != [] ==> pc.rest[0].page in s.spans && pc.rest[0].page in s.heap
    ensures StepShape(s, t, r)
  {
    if pc.rest == [] then
      Unlocked(s, t, ClassLock(pc.cl),
               if pc.cont.Finish? then Idle else BackWait(pc.cont.cl, pc.cont.chain, pc.cont.force, true))
    else
      var o := pc.rest[0];
      if s.spans[o.page].refcount - 1 == 0 then Retire(s, t, pc.cl, o, DeleteWait(pc.cl, pc.rest[1..], pc.cont, o.page))
      else PutBack(s, t, pc.cl, o, Release(pc.cl, pc.rest[1..], pc.cont))
  }

  function DoTryCached(s: State, t: nat, pc: Pc): (r: State)
    requires t in s.threads && s.threads[t] == pc
    requires pc.RemoveHeld? && pc.cl < |s.lists| && pc.cl < |s.cfg.move|
    ensures StepShape(s, t, r)
  {
    var c, l := pc.cl, s.lists[pc.cl];
    if pc.n == s.cfg.move[c] && |l.slots| > 0 then
      s.(lists := s.lists[c := PopSlot(l)],
      loc := Moved(s.loc, l.slots[|l.slots| - 1], Client),
      owner := s.owner - {ClassLock(c)},
      threads := s.threads[t := Idle])
    else Goto(s, t, Fetch(c, pc.n, [], false))
  }

  /** The loop of RemoveRange, with Populate tried once when nothing at all could be fetched. */
  function DoFetch(s: State, t: nat, pc: Pc): State
    requires t in s.threads && s.threads[t] == pc
    requires pc.Fetch? && pc.cl < |s.lists|
    requires s.lists[pc.cl].nonempty != [] ==> s.lists[pc.cl].nonempty[0] in s.spans
  {
    var l := s.lists[pc.cl];
    if |pc.got| < pc.n && l.nonempty != [] then FetchOne(s, t, pc)
    else if pc.got == [] && !pc.populated then Unlocked(s, t, ClassLock(pc.cl), NewWait(pc.cl, pc.n))
    else Unlocked(s.(loc := Moved(s.loc, pc.got, Client)), t, ClassLock(pc.cl), Idle)
  }

  /** Thread `t` takes s to s2 by event `e`. The index and membership guards stand for what the
      code takes for granted; that they always hold is part of what is proved. */
  ghost predicate Next(s: State, t: nat, e: Event, s2: State) {
    && t in s.threads
    && var pc := s.threads[t];
    match e
    case CallInsert(c, chain) =>
      && pc.Idle? && ClientChain(s, c, chain)
      && s2 == s.(loc := Moved(s.loc, chain, InTransit(t)), threads := s.threads[t := InsertWait(c, chain)])
    case CallRemove(c, n) =>
      pc.Idle? && 1 <= c < |s.lists| && n > 0 && s2 == Goto(s, t, RemoveWait(c, n))
    case TakeLock =>
      Wants(pc).Some? && Wants(pc).value.0 !in s.owner && s2 == Locked(s, t, Wants(pc).value.0, Wants(pc).value.1)
    case Insert =>
      && pc.InsertHeld? && pc.cl < |s.lists| && pc.cl < |s.cfg.move| && pc.cl < |s.cfg.maxCache|
      && s2 == DoInsert(s, t, pc)
    case PassOver =>
      pc.Evict? && s2 == EvictFailed(s, t, pc.cl, pc.chain, pc.force)
    case PickVictim(v) =>
      && pc.Evict? && v < |s.lists| && v != pc.cl
      && s2 == Unlocked(s, t, ClassLock(pc.cl), ShrinkWait(pc.cl, pc.chain, pc.force, v))
    case Shrink =>
      pc.ShrinkHeld? && pc.victim < |s.lists| && s2 == DoShrink(s, t, pc)
    case AfterEvict =>
      pc.Evicted? && pc.cl < |s.lists| && pc.cl < |s.cfg.maxCache| && s2 == DoAfterEvict(s, t, pc)
    case ReleaseNext =>
      && pc.Release? && pc.cl < |s.lists| && pc.cl < |s.cfg.perSpan|
      && (pc.rest != [] ==> pc.rest[0].page in s.spans && pc.rest[0].page in s.heap)
      && s2 == DoRelease(s, t, pc)
    case Delete =>
      pc.DeleteHeld? && s2 == Unlocked(s.(heap := s.heap - {pc.page}), t, HeapLock, RelockWait(pc.cl, pc.rest, pc.cont))
    case TryCached =>
      pc.RemoveHeld? && pc.cl < |s.lists| && pc.cl < |s.cfg.move| && s2 == DoTryCached(s, t, pc)
    case FetchNext =>
      && pc.Fetch? && pc.cl < |s.lists|
      && (s.lists[pc.cl].nonempty != [] ==> s.lists[pc.cl].nonempty[0] in s.spans)
      && s2 == DoFetch(s, t, pc)
    case NewSpan(p) =>
      && pc.NewHeld? && pc.cl < |s.cfg.pages| && FreshPages(s, p, s.cfg.pages[pc.cl])
      && s2 == Unlocked(s.(heap := s.heap[p := HeapSpan(s.cfg.pages[pc.cl], Limbo(t))]), t, HeapLock,
                        LinkWait(pc.cl, pc.n, Some(p)))
    case NoMemory =>
      pc.NewHeld? && s2 == Unlocked(s, t, HeapLock, LinkWait(pc.cl, pc.n, None))
    case Link =>
      && pc.LinkHeld? && pc.cl < |s.lists| && pc.cl < |s.cfg.perSpan| && (pc.span.Some? ==> pc.span.value in s.heap)
      && s2 == if pc.span.None? then Goto(s, t, Fetch(pc.cl, pc.n, [], true))
               else LinkSpan(s, t, pc.cl, pc.span.value, Fetch(pc.cl, pc.n, [], true))
  }

  /** All lists empty, every cache at its starting size, every thread idle. */
  ghost predicate Initial(s: State) {
    && ValidConfig(s.cfg) && |s.lists| == |s.cfg.perSpan|
    && (forall c :: 0 <= c < |s.lists| ==>
          s.lists[c] == CentralList([], [], 0, 0, [], Min(INITIAL_CACHE, s.cfg.maxCache[c])))
    && s.spans == map[] && s.heap == map[] && s.loc == map[] && s.owner == map[]
    && (forall t :: t in s.threads ==> s.threads[t] == Idle)
  }

  /** A run: any number of steps by any threads in any order. */
  ghost predicate IsRun(run: seq<State>) {
    && run != [] && Initial(run[0])
    && forall i :: 0 <= i < |run| - 1 ==> CanStep(run[i], run[i + 1])
  }

  ghost predicate CanStep(s: State, s2: State) {
    exists t, e :: Next(s, t, e, s2)
  }
}
