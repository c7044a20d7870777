/** The run's steps on spans are the link-level operations of one central list, and its chains are
    chains of addresses. */
module CentralImages {
  import opened Basics
  import opened CentralState
  import opened CentralInvariant
  import CentralLinks
  import CentralChains
  import ObjectChains

  function Addresses(addr: Obj -> nat, xs: seq<Obj>): seq<nat> {
    seq(|xs|, i requires 0 <= i < |xs| => addr(xs[i]))
  }

  /** The list of class c as the link level sees it. */
  ghost function Image(s: State, c: nat, addr: Obj -> nat): CentralLinks.Links
    requires c < |s.lists|
  {
    CentralLinks.Links(map p | p in s.spans && s.spans[p].cl == c :: Addresses(addr, s.spans[p].objects),
                       map p | p in s.spans && s.spans[p].cl == c :: s.spans[p].refcount,
                       s.lists[c].nonempty, s.lists[c].empty, s.lists[c].counter, s.lists[c].numSpans)
  }

  lemma AddressesTail(addr: Obj -> nat, xs: seq<Obj>, k: nat)
    requires k <= |xs|
    ensures |Addresses(addr, xs)| == |xs| && Addresses(addr, xs)[k..] == Addresses(addr, xs[k..])
  {
  }

  /** A fetch in a run is Fetched at the link level, which SpanLists.FetchFromOneSpans implements. */
  lemma FetchIsFetched(s: State, t: nat, pc: Pc, addr: Obj -> nat)
    requires pc.Fetch? && pc.cl < |s.lists| && |pc.got| < pc.n
    requires s.lists[pc.cl].nonempty != [] && s.lists[pc.cl].nonempty[0] in s.spans
    requires s.spans[s.lists[pc.cl].nonempty[0]].cl == pc.cl
    ensures Image(FetchOne(s, t, pc), pc.cl, addr) == CentralLinks.Fetched(Image(s, pc.cl, addr), pc.n - |pc.got|)
  {
    hide Moved, Addresses;
    var c, p := pc.cl, s.lists[pc.cl].nonempty[0];
    var objs, s2 := s.spans[p].objects, FetchOne(s, t, pc);
    var k := Min(pc.n - |pc.got|, |objs|);
    AddressesTail(addr, objs, k);
    SpanChange(s, s2, c, p, addr);
  }

  /** The image of a state in which one span of the class has changed. */
  lemma SpanChange(s: State, s2: State, c: nat, p: nat, addr: Obj -> nat)
    requires c < |s.lists| == |s2.lists| && p in s.spans && p in s2.spans && s.spans[p].cl == s2.spans[p].cl == c
    requires s2.spans == s.spans[p := s2.spans[p]]
    ensures Image(s2, c, addr).free == Image(s, c, addr).free[p := Addresses(addr, s2.spans[p].objects)]
    ensures Image(s2, c, addr).refcount == Image(s, c, addr).refcount[p := s2.spans[p].refcount]
  {
    hide Addresses;
  }

  lemma {:induction false} WithoutAbsent(xs: seq<nat>, p: nat)
    requires p !in xs
    ensures Without(xs, p) == xs
  {
    if xs != [] { WithoutAbsent(xs[1..], p); }
  }

  /** An object put back in a run, with others of its span still out, is Released at the link level. */
  lemma PutBackIsReleased(s: State, t: nat, c: nat, o: Obj, pc: Pc, perSpan: nat, addr: Obj -> nat)
    requires c < |s.lists| && o.page in s.spans && s.spans[o.page].cl == c && s.spans[o.page].refcount != 1
    ensures Image(PutBack(s, t, c, o, pc), c, addr) ==
            CentralLinks.Released(Image(s, c, addr), addr(o), o.page, perSpan)
  {
    hide Without;
    var objs := s.spans[o.page].objects;
    var a, b := Image(PutBack(s, t, c, o, pc), c, addr),
      CentralLinks.Released(Image(s, c, addr), addr(o), o.page, perSpan);
    assert Addresses(addr, [o] + objs) == [addr(o)] + Addresses(addr, objs);
    assert a.free == b.free;
    assert a.refcount == b.refcount;
  }

  /** So is the last object out, with which the span leaves the lists. */
  lemma RetireIsReleased(s: State, t: nat, c: nat, o: Obj, pc: Pc, addr: Obj -> nat)
    requires c < |s.lists| && c < |s.cfg.perSpan| && o.page in s.spans && o.page in s.heap && s.spans[o.page].cl == c
    requires s.spans[o.page].refcount == 1 && ListInv(s.spans, c, s.lists[c])
    ensures Image(Retire(s, t, c, o, pc), c, addr) ==
            CentralLinks.Released(Image(s, c, addr), addr(o), o.page, s.cfg.perSpan[c])
  {
    hide Without, ListInv;
    var p := o.page;
    var a, b := Image(Retire(s, t, c, o, pc), c, addr),
      CentralLinks.Released(Image(s, c, addr), addr(o), p, s.cfg.perSpan[c]);
    RetiredLists(s.spans, c, s.lists[c], p);
    assert a.free == b.free;
    assert a.refcount == b.refcount;
  }

  /** A span is on one of the two lists, so taking it off the other changes nothing. */
  lemma RetiredLists(spans: map<nat, Span>, c: nat, l: CentralList, p: nat)
    requires ListInv(spans, c, l) && p in spans
    ensures spans[p].objects == [] ==> Without(l.nonempty, p) == l.nonempty == Without([p] + l.nonempty, p)
    ensures spans[p].objects != [] ==> Without(l.empty, p) == l.empty
  {
    hide SumFree;
    if spans[p].objects == [] {
      assert p !in l.nonempty;
      WithoutAbsent(l.nonempty, p);
    } else {
      assert p !in l.empty;
      WithoutAbsent(l.empty, p);
    }
  }

  /** A link as the address stored in memory. */
  function Pointer(addr: Obj -> nat, o: Option<Obj>): nat {
    if o.None? then ObjectChains.NULL else addr(o.value)
  }

  /** Where distinct objects have distinct addresses other than NULL, a chain of a run is a chain of
      addresses. */
  lemma ChainIsChain(mem: CentralChains.Links, xs: seq<Obj>, addr: Obj -> nat, next: map<nat, nat>)
    requires CentralChains.Linked(mem, xs) && NoDup(Addresses(addr, xs))
    requires forall o :: o in xs && o in mem ==>
             addr(o) != ObjectChains.NULL && addr(o) in next && next[addr(o)] == Pointer(addr, mem[o])
    ensures ObjectChains.Chain(next, Pointer(addr, CentralChains.Head(xs)), Addresses(addr, xs))
  {
    var ys := Addresses(addr, xs);
    forall i | 0 <= i < |ys|
      ensures ys[i] != ObjectChains.NULL && ys[i] in next && next[ys[i]] == ObjectChains.At(ys, i + 1)
    {
      assert xs[i] in xs && mem[xs[i]] == CentralChains.Head(xs[i + 1..]);
    }
  }
}
