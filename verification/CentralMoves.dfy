/** How objects change place: the effect of each kind of move on each part of the invariant. */
module CentralMoves {
  import opened Basics
  import opened CentralState
  import opened CentralInvariant

  /** The same spans, each of the same class. */
  ghost predicate SameClasses(spans: map<nat, Span>, spans2: map<nat, Span>) {
    spans2.Keys == spans.Keys && forall p :: p in spans ==> spans2[p].cl == spans[p].cl
  }

  lemma MoveKeepsObjects(g: Config, spans: map<nat, Span>, loc: map<Obj, Place>, xs: seq<Obj>, to: Place)
    requires Objects(g, spans, loc)
    ensures Objects(g, spans, Moved(loc, xs, to))
  {
  }

  lemma MoveKeepsFree(spans: map<nat, Span>, loc: map<Obj, Place>, xs: seq<Obj>, to: Place)
    requires FreeLists(spans, loc) && !to.Free?
    requires forall o :: o in xs ==> o in loc && !loc[o].Free?
    ensures FreeLists(spans, Moved(loc, xs, to))
  {
  }

  lemma MoveKeepsSlots(g: Config, lists: seq<CentralList>, spans: map<nat, Span>, loc: map<Obj, Place>,
                       xs: seq<Obj>, to: Place)
    requires Slots(g, lists, spans, loc) && !to.Cached?
    requires forall o :: o in xs ==> o in loc && !loc[o].Cached?
    ensures Slots(g, lists, spans, Moved(loc, xs, to))
  {
    var loc2 := Moved(loc, xs, to);
    forall c, i | 0 <= c < |lists| && 0 <= i < |lists[c].slots|
      ensures ChainAt(g, spans, loc2, c, i, lists[c].slots[i])
    {
      assert ChainAt(g, spans, loc, c, i, lists[c].slots[i]);
    }
  }

  /** Thread t picks up xs, which no thread carried before. */
  lemma PickUp(spans: map<nat, Span>, loc: map<Obj, Place>, threads: map<nat, Pc>, t: nat, pc2: Pc, xs: seq<Obj>)
    requires Carried(spans, loc, threads) && t in threads
    requires forall o :: o in xs ==> o in loc && !loc[o].InTransit?
    requires NoDup(xs) && CarryTyped(spans, pc2) && Carry(pc2) == xs + Carry(threads[t])
    ensures Carried(spans, Moved(loc, xs, InTransit(t)), threads[t := pc2])
  {
    var loc2, threads2 := Moved(loc, xs, InTransit(t)), threads[t := pc2];
    hide CarryTyped, Carry;
    assert CarryAt(spans, loc, t, threads[t]);
    NoDupJoin(xs, Carry(threads[t]));
    assert CarryAt(spans, loc2, t, pc2);
    forall u | u in threads2 && u != t ensures CarryAt(spans, loc2, u, threads2[u]) {
      assert CarryAt(spans, loc, u, threads[u]);
    }
    forall o | o in loc2 && loc2[o].InTransit?
      ensures loc2[o].tid in threads2 && o in Carry(threads2[loc2[o].tid])
    {
    }
  }

  /** Thread t puts down xs, the front part of what it carried. */
  lemma PutDown(spans: map<nat, Span>, loc: map<Obj, Place>, threads: map<nat, Pc>, t: nat, pc2: Pc, xs: seq<Obj>,
                to: Place)
    requires Carried(spans, loc, threads) && t in threads && !to.InTransit?
    requires CarryTyped(spans, pc2) && Carry(threads[t]) == xs + Carry(pc2)
    ensures forall o :: o in xs ==> o in loc && loc[o] == InTransit(t)
    ensures Carried(spans, Moved(loc, xs, to), threads[t := pc2])
  {
    var loc2, threads2 := Moved(loc, xs, to), threads[t := pc2];
    assert CarryAt(spans, loc, t, threads[t]);
    NoDupParts(xs, Carry(pc2));
    forall u | u in threads2 ensures CarryAt(spans, loc2, u, threads2[u]) {
      if u != t { assert CarryAt(spans, loc, u, threads[u]); }
    }
  }

  lemma SlotPush(g: Config, lists: seq<CentralList>, spans: map<nat, Span>, loc: map<Obj, Place>, c: nat,
                 chain: seq<Obj>, size: int)
    requires Slots(g, lists, spans, loc) && c < |lists|
    requires NoDup(chain) && |chain| == g.move[c] && OfClass(spans, chain, c)
    requires forall o :: o in chain ==> o in loc && !loc[o].Cached?
    ensures Slots(g, lists[c := lists[c].(slots := lists[c].slots + [chain], cacheSize := size)], spans,
                  Moved(loc, chain, Cached(c, |lists[c].slots|)))
  {
    var l2 := lists[c].(slots := lists[c].slots + [chain], cacheSize := size);
    var lists2, loc2 := lists[c := l2], Moved(loc, chain, Cached(c, |lists[c].slots|));
    forall d, i | 0 <= d < |lists2| && 0 <= i < |lists2[d].slots|
      ensures ChainAt(g, spans, loc2, d, i, lists2[d].slots[i])
    {
      if d != c || i < |lists[c].slots| { assert ChainAt(g, spans, loc, d, i, lists[d].slots[i]); }
    }
  }

  lemma SlotPop(g: Config, lists: seq<CentralList>, spans: map<nat, Span>, loc: map<Obj, Place>, c: nat, to: Place,
                size: int)
    requires Slots(g, lists, spans, loc) && c < |lists| && |lists[c].slots| > 0 && !to.Cached?
    ensures Slots(g, lists[c := PopSlot(lists[c]).(cacheSize := size)], spans,
                  Moved(loc, lists[c].slots[|lists[c].slots| - 1], to))
    ensures ChainAt(g, spans, loc, c, |lists[c].slots| - 1, lists[c].slots[|lists[c].slots| - 1])
  {
    var k := |lists[c].slots| - 1;
    var lists2, loc2 := lists[c := PopSlot(lists[c]).(cacheSize := size)], Moved(loc, lists[c].slots[k], to);
    assert ChainAt(g, spans, loc, c, k, lists[c].slots[k]);
    forall d, i | 0 <= d < |lists2| && 0 <= i < |lists2[d].slots|
      ensures ChainAt(g, spans, loc2, d, i, lists2[d].slots[i])
    {
      assert lists2[d].slots[i] == lists[d].slots[i];
      assert ChainAt(g, spans, loc, d, i, lists[d].slots[i]);
    }
  }

  /** Slots of one class may change without touching the span lists, and the other way round. */
  lemma ListsIgnoreSlots(lists: seq<CentralList>, spans: map<nat, Span>, c: nat, l2: CentralList)
    requires Lists(lists, spans) && c < |lists|
    requires l2 == lists[c].(slots := l2.slots, cacheSize := l2.cacheSize)
    ensures Lists(lists[c := l2], spans)
  {
    var lists2 := lists[c := l2];
    forall d | 0 <= d < |lists2| ensures ListInv(spans, d, lists2[d]) {
      assert ListInv(spans, d, lists[d]);
    }
    forall p | p in spans ensures OnList(lists2, p, spans[p]) {
      assert OnList(lists, p, spans[p]);
    }
  }

  lemma SlotsIgnoreLists(g: Config, lists: seq<CentralList>, spans: map<nat, Span>, loc: map<Obj, Place>, c: nat,
                         l2: CentralList)
    requires Slots(g, lists, spans, loc) && c < |lists| && l2.slots == lists[c].slots
    ensures Slots(g, lists[c := l2], spans, loc)
  {
    var lists2 := lists[c := l2];
    forall d, i | 0 <= d < |lists2| && 0 <= i < |lists2[d].slots|
      ensures ChainAt(g, spans, loc, d, i, lists2[d].slots[i])
    {
      assert ChainAt(g, spans, loc, d, i, lists[d].slots[i]);
    }
  }

  lemma SlotsSameClasses(g: Config, lists: seq<CentralList>, spans: map<nat, Span>, spans2: map<nat, Span>,
                         loc: map<Obj, Place>)
    requires Slots(g, lists, spans, loc) && SameClasses(spans, spans2)
    ensures Slots(g, lists, spans2, loc)
  {
    forall c, i | 0 <= c < |lists| && 0 <= i < |lists[c].slots|
      ensures ChainAt(g, spans2, loc, c, i, lists[c].slots[i])
    {
      assert ChainAt(g, spans, loc, c, i, lists[c].slots[i]);
    }
  }

  lemma CarriedSameClasses(spans: map<nat, Span>, spans2: map<nat, Span>, loc: map<Obj, Place>, threads: map<nat, Pc>)
    requires Carried(spans, loc, threads) && SameClasses(spans, spans2)
    ensures Carried(spans2, loc, threads)
  {
    forall t | t in threads ensures CarryAt(spans2, loc, t, threads[t]) {
      assert CarryAt(spans, loc, t, threads[t]);
    }
  }

  lemma HeapSameClasses(g: Config, spans: map<nat, Span>, spans2: map<nat, Span>, heap: map<nat, HeapSpan>,
                        threads: map<nat, Pc>)
    requires HeapInv(g, spans, heap, threads) && SameClasses(spans, spans2)
    ensures HeapInv(g, spans2, heap, threads)
  {
  }

  /** A thread moves on without changing which span it holds in limbo. */
  lemma HeapSameLimbo(g: Config, spans: map<nat, Span>, heap: map<nat, HeapSpan>, threads: map<nat, Pc>, t: nat,
                      pc2: Pc)
    requires HeapInv(g, spans, heap, threads) && t in threads
    requires LimboSpan(pc2) == LimboSpan(threads[t])
    requires pc2.LinkHeld? && pc2.span.Some? ==> threads[t].LinkWait? && threads[t].cl == pc2.cl
    requires pc2.LinkWait? ==> pc2.span.None?
    ensures HeapInv(g, spans, heap, threads[t := pc2])
  {
  }
}
