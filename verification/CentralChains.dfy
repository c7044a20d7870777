/** The links of objects over whole runs: whatever the interleaving, every free list, every transfer
    slot and every chain a thread carries is a null-terminated chain in memory. */
module CentralChains {
  import opened Basics
  import opened CentralState
  import opened CentralInvariant
  import opened CentralRuns

  /** The first word of objects: the link the code reads and writes there, None being NULL. */
  type Links = map<Obj, Option<Obj>>

  function Head(xs: seq<Obj>): Option<Obj> {
    if xs == [] then None else Some(xs[0])
  }

  /** Following links from the first of xs visits exactly xs and then ends. */
  ghost predicate Linked(mem: Links, xs: seq<Obj>) {
    forall i :: 0 <= i < |xs| ==> xs[i] in mem && mem[xs[i]] == Head(xs[i + 1..])
  }

  /** The links a row of objects gets. */
  ghost function Chained(mem: Links, xs: seq<Obj>): Links
    requires NoDup(xs)
  {
    map o | o in mem.Keys + (set x | x in xs) :: if o in xs then LinkIn(xs, o) else mem[o]
  }

  ghost function LinkIn(xs: seq<Obj>, o: Obj): Option<Obj>
    requires o in xs && NoDup(xs)
  {
    var i :| 0 <= i < |xs| && xs[i] == o;
    Head(xs[i + 1..])
  }

  /** The chain a thread works on, and the one it keeps for when ShrinkCache returns. */
  function MainChain(pc: Pc): seq<Obj> {
    match pc
    case Release(_, rest, _) => rest
    case DeleteWait(_, rest, _, _) => rest
    case DeleteHeld(_, rest, _, _) => rest
    case RelockWait(_, rest, _) => rest
    case _ => Carry(pc)
  }

  function SideChain(pc: Pc): seq<Obj> {
    match pc
    case Release(_, _, k) => ContChain(k)
    case DeleteWait(_, _, k, _) => ContChain(k)
    case DeleteHeld(_, _, k, _) => ContChain(k)
    case RelockWait(_, _, k) => ContChain(k)
    case _ => []
  }

  lemma CarryParts(pc: Pc)
    ensures Carry(pc) == MainChain(pc) + SideChain(pc)
  {
  }

  ghost predicate FreeLinked(spans: map<nat, Span>, mem: Links) {
    forall p :: p in spans ==> Linked(mem, spans[p].objects)
  }

  ghost predicate SlotsLinked(lists: seq<CentralList>, mem: Links) {
    forall c, k :: 0 <= c < |lists| && 0 <= k < |lists[c].slots| ==> Linked(mem, lists[c].slots[k])
  }

  ghost predicate PcLinked(pc: Pc, mem: Links) {
    Linked(mem, MainChain(pc)) && Linked(mem, SideChain(pc))
  }

  ghost predicate CarriesLinked(threads: map<nat, Pc>, mem: Links) {
    forall t :: t in threads ==> PcLinked(threads[t], mem)
  }

  ghost predicate AllLinked(s: State, mem: Links) {
    FreeLinked(s.spans, mem) && SlotsLinked(s.lists, mem) && CarriesLinked(s.threads, mem)
  }

  /** What a step writes: the client's own chain before InsertRange, the link of an object put back,
      the cut and the joint of a fetched batch, and the links Populate lays out. */
  ghost function Written(s: State, t: nat, e: Event, s2: State, mem: Links): Links
    requires Next(s, t, e, s2)
  {
    var pc := s.threads[t];
    match e
    case CallInsert(_, chain) => Chained(mem, chain)
    case ReleaseNext =>
      if pc.rest != [] && s.spans[pc.rest[0].page].refcount != 1 then
        mem[pc.rest[0] := Head(s.spans[pc.rest[0].page].objects)]
      else mem
    case FetchNext =>
      if |pc.got| < pc.n && s.lists[pc.cl].nonempty != [] then
        var objs := s.spans[s.lists[pc.cl].nonempty[0]].objects;
        var k := Min(pc.n - |pc.got|, |objs|);
        if k == 0 then mem else mem[objs[k - 1] := Head(pc.got)]
      else mem
    case Link => if pc.span.Some? then CarvedLinks(mem, pc.span.value, s.cfg.perSpan[pc.cl]) else mem
    case _ => mem
  }

  ghost function CarvedLinks(mem: Links, p: nat, n: nat): Links {
    assert NoDup(Carved(p, n));
    Chained(mem, Carved(p, n))
  }

  /** The links survive wherever the client has no business: it may overwrite the objects it holds. */
  ghost predicate Kept(loc: map<Obj, Place>, mem: Links, mem2: Links) {
    forall o :: o in loc && loc[o] != Client && o in mem ==> o in mem2 && mem2[o] == mem[o]
  }

  /** A run with its memory: each step writes what the code writes, and the client what it likes. */
  ghost predicate IsLinkedRun(run: seq<State>, mems: seq<Links>) {
    && run != [] && Initial(run[0]) && |mems| == |run|
    && forall i :: 0 <= i < |run| - 1 ==> LinkedStep(run[i], mems[i], run[i + 1], mems[i + 1])
  }

  ghost predicate LinkedStep(s: State, mem: Links, s2: State, mem2: Links) {
    exists t, e :: Next(s, t, e, s2) && Kept(s2.loc, Written(s, t, e, s2, mem), mem2)
  }

  // ----- chains -----

  lemma LinkedFrame(mem: Links, mem2: Links, xs: seq<Obj>)
    requires Linked(mem, xs) && forall o :: o in xs && o in mem ==> o in mem2 && mem2[o] == mem[o]
    ensures Linked(mem2, xs)
  {
    forall i | 0 <= i < |xs| ensures xs[i] in mem2 && mem2[xs[i]] == Head(xs[i + 1..]) {
      assert xs[i] in xs;
    }
  }

  lemma LinkedTail(mem: Links, xs: seq<Obj>, k: nat)
    requires Linked(mem, xs) && k <= |xs|
    ensures Linked(mem, xs[k..])
  {
    forall i | 0 <= i < |xs| - k ensures xs[k..][i] in mem && mem[xs[k..][i]] == Head(xs[k..][i + 1..]) {
      assert xs[k..][i + 1..] == xs[k + i + 1..];
    }
  }

  /** SLL_Push */
  lemma LinkedPush(mem: Links, o: Obj, xs: seq<Obj>)
    requires Linked(mem, xs) && o !in xs
    ensures Linked(mem[o := Head(xs)], [o] + xs)
  {
    var ys, mem2 := [o] + xs, mem[o := Head(xs)];
    forall i | 0 <= i < |ys| ensures ys[i] in mem2 && mem2[ys[i]] == Head(ys[i + 1..]) {
      if i == 0 {
        assert ys[1..] == xs;
      } else {
        assert ys[i] == xs[i - 1] && ys[i + 1..] == xs[i..] && xs[i - 1] in xs;
      }
    }
  }

  /** The cut after k objects and SLL_PushRange: the front goes before ys, the rest stays a chain. */
  lemma LinkedSplice(mem: Links, xs: seq<Obj>, k: nat, ys: seq<Obj>)
    requires Linked(mem, xs) && Linked(mem, ys) && 0 < k <= |xs| && NoDup(xs) && forall o :: o in xs ==> o !in ys
    ensures var mem2 := mem[xs[k - 1] := Head(ys)]; Linked(mem2, xs[..k] + ys) && Linked(mem2, xs[k..])
  {
    var mem2, zs := mem[xs[k - 1] := Head(ys)], xs[..k] + ys;
    LinkedTail(mem, xs, k);
    assert xs[k - 1] !in xs[k..];
    LinkedFrame(mem, mem2, xs[k..]);
    forall i | 0 <= i < |zs| ensures zs[i] in mem2 && mem2[zs[i]] == Head(zs[i + 1..]) {
      if i < k - 1 {
        assert zs[i] == xs[i] && zs[i + 1..][0] == xs[i + 1] == xs[i + 1..][0];
      } else if i == k - 1 {
        assert zs[k..] == ys;
      } else {
        assert zs[i] == ys[i - k] && zs[i + 1..] == ys[i - k + 1..] && ys[i - k] in ys && xs[k - 1] in xs;
      }
    }
  }

  lemma ChainedLinks(mem: Links, xs: seq<Obj>)
    requires NoDup(xs)
    ensures Linked(Chained(mem, xs), xs)
    ensures forall o :: o in mem && o !in xs ==> o in Chained(mem, xs) && Chained(mem, xs)[o] == mem[o]
  {
    var mem2 := Chained(mem, xs);
    forall i | 0 <= i < |xs| ensures xs[i] in mem2 && mem2[xs[i]] == Head(xs[i + 1..]) {
      assert xs[i] in xs;
    }
  }

  // ----- chains elsewhere do not notice -----

  /** The two memories agree on every object in that place. */
  ghost predicate SameAt(loc: map<Obj, Place>, mem: Links, mem2: Links, place: Place) {
    forall o :: o in loc && loc[o] == place && o in mem ==> o in mem2 && mem2[o] == mem[o]
  }

  lemma KeepFree(spans: map<nat, Span>, loc: map<Obj, Place>, mem: Links, mem2: Links)
    requires FreeLists(spans, loc) && FreeLinked(spans, mem) && SameAt(loc, mem, mem2, Free)
    ensures FreeLinked(spans, mem2)
  {
    hide Linked;
    forall p | p in spans ensures Linked(mem2, spans[p].objects) {
      LinkedFrame(mem, mem2, spans[p].objects);
    }
  }

  lemma KeepSlots(g: Config, lists: seq<CentralList>, spans: map<nat, Span>, loc: map<Obj, Place>, mem: Links,
                  mem2: Links)
    requires Slots(g, lists, spans, loc) && SlotsLinked(lists, mem)
    requires forall c, k :: SameAt(loc, mem, mem2, Cached(c, k))
    ensures SlotsLinked(lists, mem2)
  {
    hide Linked, OfClass;
    forall c, k | 0 <= c < |lists| && 0 <= k < |lists[c].slots| ensures Linked(mem2, lists[c].slots[k]) {
      assert ChainAt(g, spans, loc, c, k, lists[c].slots[k]) && SameAt(loc, mem, mem2, Cached(c, k));
      LinkedFrame(mem, mem2, lists[c].slots[k]);
    }
  }

  lemma KeepPc(spans: map<nat, Span>, loc: map<Obj, Place>, t: nat, pc: Pc, mem: Links, mem2: Links)
    requires CarryAt(spans, loc, t, pc) && PcLinked(pc, mem) && SameAt(loc, mem, mem2, InTransit(t))
    ensures PcLinked(pc, mem2)
  {
    hide Linked, MainChain, SideChain, Carry, CarryTyped;
    CarryParts(pc);
    LinkedFrame(mem, mem2, MainChain(pc));
    LinkedFrame(mem, mem2, SideChain(pc));
  }

  /** Every thread but t keeps its chains; t has those of pc2. */
  lemma KeepCarries(spans: map<nat, Span>, loc: map<Obj, Place>, threads: map<nat, Pc>, t: nat, pc2: Pc, mem: Links,
                    mem2: Links)
    requires Carried(spans, loc, threads) && CarriesLinked(threads, mem) && PcLinked(pc2, mem2)
    requires forall u :: u != t ==> SameAt(loc, mem, mem2, InTransit(u))
    ensures CarriesLinked(threads[t := pc2], mem2)
  {
    hide PcLinked, CarryAt;
    forall u | u in threads && u != t ensures PcLinked(threads[u], mem2) {
      assert SameAt(loc, mem, mem2, InTransit(u));
      KeepPc(spans, loc, u, threads[u], mem, mem2);
    }
  }

  /** Writes to objects in one place leave the links of all other places alone. */
  lemma WritesApart(loc: map<Obj, Place>, mem: Links, mem2: Links, place: Place)
    requires forall o :: o in loc && loc[o] != place && o in mem ==> o in mem2 && mem2[o] == mem[o]
    ensures forall q: Place :: q != place ==> SameAt(loc, mem, mem2, q)
  {
  }

  /** What the client does to its own objects harms no chain. */
  lemma Scribble(s: State, mem: Links, mem2: Links)
    requires DataInv(s) && AllLinked(s, mem) && Kept(s.loc, mem, mem2)
    ensures AllLinked(s, mem2)
  {
    hide FreeLists, Slots, Carried, Objects, RefInv, Lists, HeapInv, FreeLinked, SlotsLinked, PcLinked;
    WritesApart(s.loc, mem, mem2, Client);
    KeepFree(s.spans, s.loc, mem, mem2);
    KeepSlots(s.cfg, s.lists, s.spans, s.loc, mem, mem2);
    forall t | t in s.threads ensures PcLinked(s.threads[t], mem2) {
      ThreadCarries(s.spans, s.loc, s.threads, t);
      KeepPc(s.spans, s.loc, t, s.threads[t], mem, mem2);
    }
  }

  lemma ThreadCarries(spans: map<nat, Span>, loc: map<Obj, Place>, threads: map<nat, Pc>, t: nat)
    requires Carried(spans, loc, threads) && t in threads
    ensures CarryAt(spans, loc, t, threads[t])
  {
  }

  // ----- steps that write links -----

  lemma CallInsertLinks(s: State, t: nat, c: nat, chain: seq<Obj>, mem: Links)
    requires DataInv(s) && AllLinked(s, mem) && t in s.threads && ClientChain(s, c, chain)
    ensures var mem2 := Chained(mem, chain);
            && FreeLinked(s.spans, mem2) && SlotsLinked(s.lists, mem2)
            && CarriesLinked(s.threads[t := InsertWait(c, chain)], mem2)
  {
    hide FreeLists, Slots, Carried, Objects, RefInv, Lists, HeapInv, FreeLinked, SlotsLinked, Linked, Chained;
    var mem2 := Chained(mem, chain);
    ChainedLinks(mem, chain);
    NothingLinked(mem2);
    WritesApart(s.loc, mem, mem2, Client);
    KeepFree(s.spans, s.loc, mem, mem2);
    KeepSlots(s.cfg, s.lists, s.spans, s.loc, mem, mem2);
    KeepCarries(s.spans, s.loc, s.threads, t, InsertWait(c, chain), mem, mem2);
  }

  lemma NothingLinked(mem: Links)
    ensures Linked(mem, [])
  {
  }

  /** The object at the head of the chain being released goes in front of its span's list. */
  lemma PutBackLinks(s: State, t: nat, c: nat, rest: seq<Obj>, k: Cont, sp2: Span, mem: Links)
    requires DataInv(s) && AllLinked(s, mem) && t in s.threads && s.threads[t] == Release(c, rest, k)
    requires rest != [] && rest[0].page in s.spans && sp2.objects == [rest[0]] + s.spans[rest[0].page].objects
    ensures var o := rest[0];
            var mem2 := mem[o := Head(s.spans[o.page].objects)];
            && FreeLinked(s.spans[o.page := sp2], mem2) && SlotsLinked(s.lists, mem2)
            && CarriesLinked(s.threads[t := Release(c, rest[1..], k)], mem2)
  {
    hide Slots, Carried, Objects, RefInv, Lists, HeapInv, SlotsLinked, Linked, FreeLists, CarryTyped;
    var o := rest[0];
    var objs, mem2 := s.spans[o.page].objects, mem[o := Head(s.spans[o.page].objects)];
    ThreadCarries(s.spans, s.loc, s.threads, t);
    ReleaseTail(rest, k);
    assert o in rest && o in Carry(s.threads[t]) && s.loc[o] == InTransit(t);
    WritesApart(s.loc, mem, mem2, InTransit(t));
    KeepFree(s.spans, s.loc, mem, mem2);
    NotFree(s.spans, s.loc, o);
    LinkedPush(mem, o, objs);
    KeepSlots(s.cfg, s.lists, s.spans, s.loc, mem, mem2);
    assert PcLinked(s.threads[t], mem);
    LinkedTail(mem, rest, 1);
    LinkedFrame(mem, mem2, rest[1..]);
    LinkedFrame(mem, mem2, ContChain(k));
    assert PcLinked(Release(c, rest[1..], k), mem2);
    KeepCarries(s.spans, s.loc, s.threads, t, Release(c, rest[1..], k), mem, mem2);
  }

  lemma ReleaseTail(rest: seq<Obj>, k: Cont)
    requires rest != [] && NoDup(rest + ContChain(k))
    ensures rest[0] !in rest[1..] && rest[0] !in ContChain(k)
  {
    NoDupParts(rest, ContChain(k));
    assert rest[0] in rest;
  }

  lemma NotFree(spans: map<nat, Span>, loc: map<Obj, Place>, o: Obj)
    requires FreeLists(spans, loc) && o in loc && loc[o] != Free
    ensures forall p :: p in spans ==> o !in spans[p].objects
  {
  }

  /** A batch is cut off the front of a span's list and joined to what the thread has. */
  lemma FetchLinks(s: State, t: nat, pc: Pc, p: nat, k: nat, sp2: Span, pc2: Pc, mem: Links)
    requires DataInv(s) && AllLinked(s, mem) && t in s.threads && s.threads[t] == pc && pc.Fetch? && p in s.spans
    requires 0 < k <= |s.spans[p].objects| && sp2.objects == s.spans[p].objects[k..]
    requires pc2.Fetch? && pc2.got == s.spans[p].objects[..k] + pc.got
    ensures var mem2 := mem[s.spans[p].objects[k - 1] := Head(pc.got)];
            && FreeLinked(s.spans[p := sp2], mem2) && SlotsLinked(s.lists, mem2)
            && CarriesLinked(s.threads[t := pc2], mem2)
  {
    hide Slots, Carried, Objects, RefInv, Lists, HeapInv, SlotsLinked, FreeLinked, Linked, FreeLists, CarryTyped;
    var x := s.spans[p].objects[k - 1];
    var mem2 := mem[x := Head(pc.got)];
    ThreadCarries(s.spans, s.loc, s.threads, t);
    SpanIsFree(s.spans, s.loc, p);
    assert x in s.spans[p].objects;
    WritesApart(s.loc, mem, mem2, Free);
    assert PcLinked(pc, mem);
    CutSpan(s.spans, s.loc, p, k, sp2, pc.got, mem);
    NothingLinked(mem2);
    KeepSlots(s.cfg, s.lists, s.spans, s.loc, mem, mem2);
    KeepCarries(s.spans, s.loc, s.threads, t, pc2, mem, mem2);
  }

  lemma CutSpan(spans: map<nat, Span>, loc: map<Obj, Place>, p: nat, k: nat, sp2: Span, got: seq<Obj>, mem: Links)
    requires FreeLists(spans, loc) && FreeLinked(spans, mem) && p in spans && 0 < k <= |spans[p].objects|
    requires Linked(mem, got) && (forall o :: o in got ==> o in loc && loc[o] != Free)
    requires sp2.objects == spans[p].objects[k..]
    ensures var mem2 := mem[spans[p].objects[k - 1] := Head(got)];
            FreeLinked(spans[p := sp2], mem2) && Linked(mem2, spans[p].objects[..k] + got)
  {
    hide Linked, FreeLists;
    var objs := spans[p].objects;
    var mem2 := mem[objs[k - 1] := Head(got)];
    SpanIsFree(spans, loc, p);
    LinkedSplice(mem, objs, k, got);
    assert objs[k - 1] in objs;
    forall q | q in spans && q != p ensures Linked(mem2, spans[q].objects) {
      SpanIsFree(spans, loc, q);
      LinkedFrame(mem, mem2, spans[q].objects);
    }
  }

  lemma SpanIsFree(spans: map<nat, Span>, loc: map<Obj, Place>, p: nat)
    requires FreeLists(spans, loc) && p in spans
    ensures NoDup(spans[p].objects) && forall o :: o in spans[p].objects ==> o.page == p && o in loc && loc[o] == Free
  {
  }

  /** Populate lays the links of a span that no one else can see yet. */
  lemma LinkSpanLinks(s: State, t: nat, p: nat, n: nat, sp2: Span, pc2: Pc, mem: Links)
    requires DataInv(s) && AllLinked(s, mem) && t in s.threads && p !in s.spans && sp2.objects == Carved(p, n)
    requires MainChain(pc2) == [] && SideChain(pc2) == []
    ensures var mem2 := CarvedLinks(mem, p, n);
            && FreeLinked(s.spans[p := sp2], mem2) && SlotsLinked(s.lists, mem2)
            && CarriesLinked(s.threads[t := pc2], mem2)
  {
    hide Slots, Carried, RefInv, Lists, HeapInv, SlotsLinked, Linked, FreeLists, Chained, MainChain, SideChain;
    var objs, mem2 := Carved(p, n), CarvedLinks(mem, p, n);
    ChainedLinks(mem, objs);
    NothingLinked(mem2);
    forall o | o in s.loc ensures o !in objs {}
    WritesApart(s.loc, mem, mem2, Client);
    KeepFree(s.spans, s.loc, mem, mem2);
    KeepSlots(s.cfg, s.lists, s.spans, s.loc, mem, mem2);
    KeepCarries(s.spans, s.loc, s.threads, t, pc2, mem, mem2);
  }

  // ----- steps that write none -----

  ghost predicate SameSlots(lists: seq<CentralList>, lists2: seq<CentralList>) {
    |lists2| == |lists| && forall c :: 0 <= c < |lists| ==> lists2[c].slots == lists[c].slots
  }

  /** Where only the place in the program changes, the chains carried stay the same. */
  lemma SameChains(pc: Pc, pc2: Pc, mem: Links)
    requires PcLinked(pc, mem) && MainChain(pc2) == MainChain(pc) && SideChain(pc2) == SideChain(pc)
    ensures PcLinked(pc2, mem)
  {
  }

  lemma NoChains(pc: Pc, mem: Links)
    requires MainChain(pc) == [] && SideChain(pc) == []
    ensures PcLinked(pc, mem)
  {
  }

  /** What it takes at each place in the program. */
  lemma PcMeaning(mem: Links)
    ensures forall c, x :: PcLinked(InsertHeld(c, x), mem) <==> Linked(mem, x)
    ensures forall c, x, f :: PcLinked(Evict(c, x, f), mem) <==> Linked(mem, x)
    ensures forall c, x, f, v :: PcLinked(ShrinkHeld(c, x, f, v), mem) <==> Linked(mem, x)
    ensures forall c, x, f, ok :: PcLinked(BackWait(c, x, f, ok), mem) <==> Linked(mem, x)
    ensures forall c, x, f, ok :: PcLinked(Evicted(c, x, f, ok), mem) <==> Linked(mem, x)
    ensures forall c, x, k :: PcLinked(Release(c, x, k), mem) <==> Linked(mem, x) && Linked(mem, ContChain(k))
    ensures forall c, x, k, p :: PcLinked(DeleteWait(c, x, k, p), mem) <==> Linked(mem, x) && Linked(mem, ContChain(k))
    ensures forall c, n, x, b :: PcLinked(Fetch(c, n, x, b), mem) <==> Linked(mem, x)
    ensures forall c, x, f, v :: PcLinked(ShrinkWait(c, x, f, v), mem) <==> Linked(mem, x)
    ensures forall c, x, k, p :: PcLinked(DeleteHeld(c, x, k, p), mem) <==> Linked(mem, x) && Linked(mem, ContChain(k))
    ensures forall c, x, k :: PcLinked(RelockWait(c, x, k), mem) <==> Linked(mem, x) && Linked(mem, ContChain(k))
    ensures forall c, n :: PcLinked(NewWait(c, n), mem) && PcLinked(RemoveHeld(c, n), mem)
    ensures forall c, n :: PcLinked(RemoveWait(c, n), mem)
    ensures forall c, n, p :: PcLinked(LinkWait(c, n, p), mem)
    ensures PcLinked(Idle, mem) && Linked(mem, [])
  {
    NothingLinked(mem);
    hide Linked;
  }

  /** A thread moves on, with chains that are linked; whatever else changes is not a chain. */
  lemma MoveOn(s: State, t: nat, pc2: Pc, s2: State, mem: Links)
    requires AllLinked(s, mem) && PcLinked(pc2, mem) && s2.threads == s.threads[t := pc2]
    requires s2.spans == s.spans && s2.lists == s.lists
    ensures AllLinked(s2, mem)
  {
    hide Linked, PcLinked;
  }

  lemma PcOf(s: State, t: nat, mem: Links)
    requires AllLinked(s, mem) && t in s.threads
    ensures PcLinked(s.threads[t], mem)
  {
    hide Linked, PcLinked;
  }

  lemma TakeLockLinks(s: State, t: nat, s2: State, mem: Links)
    requires Next(s, t, TakeLock, s2) && AllLinked(s, mem)
    ensures AllLinked(s2, mem)
  {
    hide AllLinked, Linked, FreshPages, ClientChain, DoInsert, DoShrink, DoAfterEvict, DoRelease, DoTryCached, DoFetch,
         LinkSpan;
    PcOf(s, t, mem);
    var pc := s.threads[t];
    SameChains(pc, Wants(pc).value.1, mem);
    MoveOn(s, t, Wants(pc).value.1, s2, mem);
  }

  lemma WaitLinks(s: State, t: nat, e: Event, s2: State, mem: Links)
    requires Next(s, t, e, s2) && AllLinked(s, mem)
    requires e.CallRemove? || e.PassOver? || e.PickVictim? || e.Delete? || e.NewSpan? || e.NoMemory?
    ensures AllLinked(s2, mem)
  {
    hide AllLinked, PcLinked, MainChain, SideChain, Carry, Linked, FreshPages, ClientChain, DoInsert, DoShrink,
         DoAfterEvict, DoRelease, DoTryCached, DoFetch, LinkSpan;
    PcOf(s, t, mem);
    PcMeaning(mem);
    MoveOn(s, t, s2.threads[t], s2, mem);
  }

  /** The slots of one class change to other linked chains. */
  lemma SlotLinks(s: State, t: nat, c: nat, l2: CentralList, pc2: Pc, s2: State, mem: Links)
    requires AllLinked(s, mem) && PcLinked(pc2, mem) && s2.threads == s.threads[t := pc2] && s2.spans == s.spans
    requires c < |s.lists| && s2.lists == s.lists[c := l2]
    requires forall k :: 0 <= k < |l2.slots| ==> Linked(mem, l2.slots[k])
    ensures AllLinked(s2, mem)
  {
    hide Linked, PcLinked;
  }

  lemma SlotsOf(s: State, c: nat, mem: Links)
    requires AllLinked(s, mem) && c < |s.lists|
    ensures forall k :: 0 <= k < |s.lists[c].slots| ==> Linked(mem, s.lists[c].slots[k])
  {
    hide Linked, PcLinked;
  }

  lemma PushSlotLinks(s: State, t: nat, c: nat, chain: seq<Obj>, size: int, mem: Links)
    requires AllLinked(s, mem) && c < |s.lists| && Linked(mem, chain)
    ensures AllLinked(PushSlot(s, t, c, chain, size), mem)
  {
    hide AllLinked, Linked, Moved;
    NoChains(Idle, mem);
    SlotsOf(s, c, mem);
    var s2 := PushSlot(s, t, c, chain, size);
    SlotLinks(s, t, c, s2.lists[c], Idle, s2, mem);
  }

  lemma InsertLinks(s: State, t: nat, pc: Pc, mem: Links)
    requires t in s.threads && s.threads[t] == pc && pc.InsertHeld? && AllLinked(s, mem)
    requires pc.cl < |s.lists| && pc.cl < |s.cfg.move| && pc.cl < |s.cfg.maxCache|
    ensures AllLinked(DoInsert(s, t, pc), mem)
  {
    hide AllLinked, PcLinked, MainChain, SideChain, Carry, Linked, PushSlot, StepShape;
    PcOf(s, t, mem);
    var c, s2 := pc.cl, DoInsert(s, t, pc);
    PcMeaning(mem);
    if |pc.chain| == s.cfg.move[c] && |s.lists[c].slots| < s.lists[c].cacheSize {
      PushSlotLinks(s, t, c, pc.chain, s.lists[c].cacheSize, mem);
    } else {
      MoveOn(s, t, s2.threads[t], s2, mem);
    }
  }

  lemma AfterEvictLinks(s: State, t: nat, pc: Pc, mem: Links)
    requires t in s.threads && s.threads[t] == pc && pc.Evicted? && AllLinked(s, mem)
    requires pc.cl < |s.lists| && pc.cl < |s.cfg.maxCache|
    ensures AllLinked(DoAfterEvict(s, t, pc), mem)
  {
    hide AllLinked, PcLinked, MainChain, SideChain, Carry, Linked, PushSlot, StepShape;
    PcOf(s, t, mem);
    var c, s2 := pc.cl, DoAfterEvict(s, t, pc);
    PcMeaning(mem);
    if pc.ok && s.lists[c].cacheSize < s.cfg.maxCache[c] {
      PushSlotLinks(s, t, c, pc.chain, s.lists[c].cacheSize + 1, mem);
    } else {
      MoveOn(s, t, s2.threads[t], s2, mem);
    }
  }

  lemma ShrinkLinks(s: State, t: nat, pc: Pc, mem: Links)
    requires t in s.threads && s.threads[t] == pc && pc.ShrinkHeld? && pc.victim < |s.lists| && AllLinked(s, mem)
    ensures AllLinked(DoShrink(s, t, pc), mem)
  {
    hide AllLinked, PcLinked, MainChain, SideChain, Carry, Linked, Moved, StepShape;
    PcOf(s, t, mem);
    var v, s2 := pc.victim, DoShrink(s, t, pc);
    var l := s.lists[v];
    PcMeaning(mem);
    if l.cacheSize != 0 && |l.slots| == l.cacheSize && pc.force {
      VictimLinks(s, t, v, Resume(pc.cl, pc.chain, pc.force), s2, mem);
    } else {
      SlotsOf(s, v, mem);
      SlotLinks(s, t, v, s2.lists[v], s2.threads[t], s2, mem);
    }
  }

  /** The last cached chain of the victim becomes the one the thread releases. */
  lemma VictimLinks(s: State, t: nat, v: nat, k: Cont, s2: State, mem: Links)
    requires AllLinked(s, mem) && v < |s.lists| && |s.lists[v].slots| > 0 && Linked(mem, ContChain(k))
    requires |s2.lists| == |s.lists|
    requires s2.lists == s.lists[v := s2.lists[v]] && s2.lists[v].slots == s.lists[v].slots[..|s.lists[v].slots| - 1]
    requires s2.threads == s.threads[t := Release(v, s.lists[v].slots[|s.lists[v].slots| - 1], k)]
    requires s2.spans == s.spans
    ensures AllLinked(s2, mem)
  {
    hide AllLinked, PcLinked, MainChain, SideChain, Carry, Linked;
    SlotsOf(s, v, mem);
    PcMeaning(mem);
    SlotLinks(s, t, v, s2.lists[v], s2.threads[t], s2, mem);
  }

  lemma TryCachedLinks(s: State, t: nat, pc: Pc, mem: Links)
    requires t in s.threads && s.threads[t] == pc && pc.RemoveHeld? && AllLinked(s, mem)
    requires pc.cl < |s.lists| && pc.cl < |s.cfg.move|
    ensures AllLinked(DoTryCached(s, t, pc), mem)
  {
    hide AllLinked, PcLinked, MainChain, SideChain, Carry, Linked, Moved, StepShape;
    var c, s2 := pc.cl, DoTryCached(s, t, pc);
    SlotsOf(s, c, mem);
    PcMeaning(mem);
    SlotLinks(s, t, c, s2.lists[c], s2.threads[t], s2, mem);
  }

  // ----- all steps -----

  /** The steps that neither write a link nor take the lock nor touch a span. */
  lemma CacheStep(s: State, t: nat, e: Event, s2: State, mem: Links)
    requires Next(s, t, e, s2) && AllLinked(s, mem) && (e.Insert? || e.AfterEvict? || e.Shrink? || e.TryCached?)
    ensures AllLinked(s2, mem)
  {
    hide AllLinked, FreshPages, ClientChain, DoInsert, DoShrink, DoAfterEvict, DoRelease, DoTryCached, DoFetch,
         LinkSpan, StepShape;
    var pc := s.threads[t];
    match e
    case Insert => InsertLinks(s, t, pc, mem);
    case AfterEvict => AfterEvictLinks(s, t, pc, mem);
    case Shrink => ShrinkLinks(s, t, pc, mem);
    case TryCached => TryCachedLinks(s, t, pc, mem);
  }

  lemma ReleaseLinks(s: State, t: nat, s2: State, mem: Links)
    requires Next(s, t, ReleaseNext, s2) && AllLinked(s, mem) && DataInv(s)
    ensures AllLinked(s2, Written(s, t, ReleaseNext, s2, mem))
  {
    hide AllLinked, PcLinked, MainChain, SideChain, Carry, DataInv, FreshPages, ClientChain, DoInsert, DoShrink,
         DoAfterEvict, DoTryCached, DoFetch, LinkSpan, StepShape,
         Linked, Without;
    PcOf(s, t, mem);
    var pc := s.threads[t];
    PcMeaning(mem);
    if pc.rest == [] {
      MoveOn(s, t, s2.threads[t], s2, mem);
    } else {
      LinkedTail(mem, pc.rest, 1);
      var p := pc.rest[0].page;
      if s.spans[p].refcount == 1 {
        RetireLinks(s, t, pc.cl, p, s2, mem);
      } else {
        var mem2 := mem[pc.rest[0] := Head(s.spans[p].objects)];
        PutBackLinks(s, t, pc.cl, pc.rest, pc.cont, s2.spans[p], mem);
        FromParts(s.lists, s2, mem2);
      }
    }
  }

  lemma FromParts(lists: seq<CentralList>, s2: State, mem: Links)
    requires FreeLinked(s2.spans, mem) && SlotsLinked(lists, mem) && CarriesLinked(s2.threads, mem)
    requires SameSlots(lists, s2.lists)
    ensures AllLinked(s2, mem)
  {
    hide Linked, PcLinked;
  }

  lemma RetireLinks(s: State, t: nat, c: nat, p: nat, s2: State, mem: Links)
    requires AllLinked(s, mem) && t in s2.threads && s2.threads == s.threads[t := s2.threads[t]]
    requires s2.spans == s.spans - {p} && SameSlots(s.lists, s2.lists) && PcLinked(s2.threads[t], mem)
    ensures AllLinked(s2, mem)
  {
    hide Linked, PcLinked;
  }

  lemma FetchOneLinks(s: State, t: nat, pc: Pc, mem: Links)
    requires t in s.threads && s.threads[t] == pc && pc.Fetch? && pc.cl < |s.lists| && AllLinked(s, mem) && DataInv(s)
    requires |pc.got| < pc.n && s.lists[pc.cl].nonempty != [] && s.lists[pc.cl].nonempty[0] in s.spans
    ensures var objs := s.spans[s.lists[pc.cl].nonempty[0]].objects;
            var k := Min(pc.n - |pc.got|, |objs|);
            k > 0 && AllLinked(FetchOne(s, t, pc), mem[objs[k - 1] := Head(pc.got)])
  {
    hide AllLinked, DataInv, PcLinked, MainChain, SideChain, Carry, Linked, Moved, FreeLinked, SlotsLinked,
         CarriesLinked;
    var p, s2 := s.lists[pc.cl].nonempty[0], FetchOne(s, t, pc);
    var objs := s.spans[p].objects;
    var k := Min(pc.n - |pc.got|, |objs|);
    ListedIsNotEmpty(s, pc.cl);
    FetchLinks(s, t, pc, p, k, s2.spans[p], s2.threads[t], mem);
    FromParts(s.lists, s2, mem[objs[k - 1] := Head(pc.got)]);
  }

  lemma FetchStep(s: State, t: nat, s2: State, mem: Links)
    requires Next(s, t, FetchNext, s2) && AllLinked(s, mem) && DataInv(s)
    ensures AllLinked(s2, Written(s, t, FetchNext, s2, mem))
  {
    hide AllLinked, PcLinked, MainChain, SideChain, Carry, DataInv, FreshPages, ClientChain, DoInsert, DoShrink,
         DoAfterEvict, DoTryCached, DoRelease, FetchOne, LinkSpan, StepShape, Linked, Moved;
    var pc := s.threads[t];
    if |pc.got| < pc.n && s.lists[pc.cl].nonempty != [] {
      FetchOneLinks(s, t, pc, mem);
    } else {
      PcMeaning(mem);
      MoveOn(s, t, s2.threads[t], s2, mem);
    }
  }

  lemma ListedIsNotEmpty(s: State, c: nat)
    requires DataInv(s) && c < |s.lists| && s.lists[c].nonempty != []
    ensures s.lists[c].nonempty[0] in s.spans && s.spans[s.lists[c].nonempty[0]].objects != []
  {
    hide Objects, FreeLists, Slots, Carried, RefInv, HeapInv, SumFree;
    assert ListInv(s.spans, c, s.lists[c]);
    assert s.lists[c].nonempty[0] in s.lists[c].nonempty;
  }

  lemma LinkStep(s: State, t: nat, s2: State, mem: Links)
    requires Next(s, t, Link, s2) && AllLinked(s, mem) && DataInv(s)
    ensures AllLinked(s2, Written(s, t, Link, s2, mem))
  {
    hide AllLinked, PcLinked, MainChain, SideChain, Carry, DataInv, FreshPages, ClientChain, DoInsert, DoShrink,
         DoAfterEvict, DoTryCached, DoRelease, DoFetch, StepShape,
         Linked, CarvedLinks, Carved;
    var pc := s.threads[t];
    PcMeaning(mem);
    if pc.span.None? {
      MoveOn(s, t, s2.threads[t], s2, mem);
    } else {
      var p := pc.span.value;
      NewSpanIsNew(s, t, p);
      FetchNothing(s2.threads[t]);
      LinkSpanLinks(s, t, p, s.cfg.perSpan[pc.cl], s2.spans[p], s2.threads[t], mem);
      FromParts(s.lists, s2, Written(s, t, Link, s2, mem));
    }
  }

  lemma FetchNothing(pc: Pc)
    requires pc.Fetch? && pc.got == []
    ensures MainChain(pc) == [] && SideChain(pc) == []
  {
  }

  lemma NewSpanIsNew(s: State, t: nat, p: nat)
    requires DataInv(s) && t in s.threads && LimboSpan(s.threads[t]) == Some(p)
    ensures p !in s.spans
  {
    hide Objects, FreeLists, Slots, Carried, RefInv, Lists;
    assert LimboAt(s.cfg, s.heap, t, s.threads[t]);
  }

  lemma CallInsertStep(s: State, t: nat, c: nat, chain: seq<Obj>, s2: State, mem: Links)
    requires Next(s, t, CallInsert(c, chain), s2) && AllLinked(s, mem) && DataInv(s)
    ensures AllLinked(s2, Written(s, t, CallInsert(c, chain), s2, mem))
  {
    hide AllLinked, DataInv, FreshPages, DoInsert, DoShrink, DoAfterEvict, DoTryCached, DoRelease, DoFetch, LinkSpan,
         Moved, Chained;
    CallInsertLinks(s, t, c, chain, mem);
    FromParts(s.lists, s2, Chained(mem, chain));
  }

  lemma StepLinks(s: State, t: nat, e: Event, s2: State, mem: Links)
    requires Inv(s) && Next(s, t, e, s2) && AllLinked(s, mem)
    ensures AllLinked(s2, Written(s, t, e, s2, mem))
  {
    hide Next, AllLinked, DataInv, LockInv, PcInv, ValidConfig;
    match e
    case CallInsert(c, chain) => CallInsertStep(s, t, c, chain, s2, mem);
    case TakeLock => TakeLockLinks(s, t, s2, mem);
    case ReleaseNext => ReleaseLinks(s, t, s2, mem);
    case FetchNext => FetchStep(s, t, s2, mem);
    case Link => LinkStep(s, t, s2, mem);
    case Insert => CacheStep(s, t, e, s2, mem);
    case AfterEvict => CacheStep(s, t, e, s2, mem);
    case Shrink => CacheStep(s, t, e, s2, mem);
    case TryCached => CacheStep(s, t, e, s2, mem);
    case _ => WaitLinks(s, t, e, s2, mem);
  }

  /** The run without its memory is a run. */
  lemma LinkedRunIsRun(run: seq<State>, mems: seq<Links>)
    requires IsLinkedRun(run, mems)
    ensures IsRun(run)
  {
    hide Next, Initial, Kept;
    forall i | 0 <= i < |run| - 1 ensures CanStep(run[i], run[i + 1]) {
      assert LinkedStep(run[i], mems[i], run[i + 1], mems[i + 1]);
      var t, e :| Next(run[i], t, e, run[i + 1])
                  && Kept(run[i + 1].loc, Written(run[i], t, e, run[i + 1], mems[i]), mems[i + 1]);
    }
  }

  /** In every state of every run, every span's free list, every transfer slot and every chain a
      thread carries is null-terminated in memory, whatever clients write into the objects they hold. */
  lemma {:induction false} AlwaysLinked(run: seq<State>, mems: seq<Links>, i: nat)
    requires IsLinkedRun(run, mems) && i < |run|
    ensures AllLinked(run[i], mems[i])
  {
    hide Next, AllLinked, Kept, Written, DataInv, LockInv, PcInv, ValidConfig, Initial, TotalSlots;
    if i == 0 {
      FirstLinks(run[0], mems[0]);
    } else {
      AlwaysLinked(run, mems, i - 1);
      LinkedRunIsRun(run, mems);
      RunInv(run, i - 1);
      RunInv(run, i);
      assert LinkedStep(run[i - 1], mems[i - 1], run[i - 1 + 1], mems[i - 1 + 1]);
      var t, e :| Next(run[i - 1], t, e, run[i])
                  && Kept(run[i].loc, Written(run[i - 1], t, e, run[i], mems[i - 1]), mems[i]);
      StepLinks(run[i - 1], t, e, run[i], mems[i - 1]);
      Scribble(run[i], Written(run[i - 1], t, e, run[i], mems[i - 1]), mems[i]);
    }
  }

  lemma FirstLinks(s: State, mem: Links)
    requires Initial(s)
    ensures AllLinked(s, mem)
  {
    forall t | t in s.threads ensures PcLinked(s.threads[t], mem) { NoChains(s.threads[t], mem); }
  }

  /** What RemoveRange hands to the client, from the cache or from spans, is one null-terminated chain
      of distinct objects in memory at that moment. */
  lemma ReturnsLinked(run: seq<State>, mems: seq<Links>, i: nat, t: nat, e: Event)
    requires IsLinkedRun(run, mems) && i + 1 < |run| && Next(run[i], t, e, run[i + 1])
    requires t in run[i].threads && (run[i].threads[t].RemoveHeld? || run[i].threads[t].Fetch?)
    requires t in run[i + 1].threads && run[i + 1].threads[t].Idle?
    ensures var s, pc := run[i], run[i].threads[t];
            && (pc.RemoveHeld? ==> pc.cl < |s.lists| && |s.lists[pc.cl].slots| > 0)
            && Linked(mems[i], Returned(s, pc)) && NoDup(Returned(s, pc))
            && Written(s, t, e, run[i + 1], mems[i]) == mems[i]
  {
    hide Next, LinkedStep, Initial, Linked, IsRun, OfClass;
    LinkedRunIsRun(run, mems);
    RemoveRangeReturns(run, i, t, e);
    AlwaysLinked(run, mems, i);
    var s, pc := run[i], run[i].threads[t];
    if pc.RemoveHeld? { SlotsOf(s, pc.cl, mems[i]); } else { PcOf(s, t, mems[i]); }
    ReturnWritesNothing(s, t, e, run[i + 1], mems[i]);
  }

  lemma ReturnWritesNothing(s: State, t: nat, e: Event, s2: State, mem: Links)
    requires Next(s, t, e, s2) && (s.threads[t].RemoveHeld? || s.threads[t].Fetch?) && t in s2.threads
    requires s2.threads[t].Idle?
    ensures Written(s, t, e, s2, mem) == mem
  {
    hide FreshPages, ClientChain, DoInsert, DoShrink, DoAfterEvict, DoRelease, LinkSpan, StepShape, Moved;
  }

  /** What the code reads is what the run says: the next object to release is read from the one at
      hand before its link is overwritten, and what a cut leaves is read from the last one taken. */
  lemma ReadsAgree(run: seq<State>, mems: seq<Links>, i: nat, t: nat)
    requires IsLinkedRun(run, mems) && i < |run| && t in run[i].threads
    ensures var s, mem, pc := run[i], mems[i], run[i].threads[t];
            && (pc.Release? && pc.rest != [] ==> pc.rest[0] in mem && mem[pc.rest[0]] == Head(pc.rest[1..]))
            && forall p, k :: p in s.spans && 0 < k <= |s.spans[p].objects| ==>
                 var x := s.spans[p].objects[k - 1]; x in mem && mem[x] == Head(s.spans[p].objects[k..])
  {
    hide LinkedStep, Initial, AllLinked;
    AlwaysLinked(run, mems, i);
    var s, mem := run[i], mems[i];
    PcOf(s, t, mem);
    forall p | p in s.spans ensures Linked(mem, s.spans[p].objects) { SpanOf(s, p, mem); }
  }

  lemma SpanOf(s: State, p: nat, mem: Links)
    requires AllLinked(s, mem) && p in s.spans
    ensures Linked(mem, s.spans[p].objects)
  {
  }
}
