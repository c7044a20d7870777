/** How spans change: fetching from one, returning objects to one, retiring and linking one. */
module CentralSpans {
  import opened Basics
  import opened CentralState
  import opened CentralInvariant
  import opened CentralMoves

  // ----- lists of spans -----

  lemma {:induction false} SumUnchanged(spans: map<nat, Span>, spans2: map<nat, Span>, ps: seq<nat>)
    requires forall p :: p in ps ==> p in spans && p in spans2 && |spans2[p].objects| == |spans[p].objects|
    ensures SumFree(spans2, ps) == SumFree(spans, ps)
  {
    if ps != [] {
      assert ps[0] in ps;
      SumUnchanged(spans, spans2, ps[1..]);
    }
  }

  lemma {:induction false} SumChanged(spans: map<nat, Span>, p: nat, sp: Span, ps: seq<nat>)
    requires NoDup(ps) && p in ps && forall q :: q in ps ==> q in spans
    ensures SumFree(spans[p := sp], ps) == SumFree(spans, ps) - |spans[p].objects| + |sp.objects|
  {
    assert ps[0] in ps;
    if ps[0] == p {
      SumUnchanged(spans, spans[p := sp], ps[1..]);
    } else {
      SumChanged(spans, p, sp, ps[1..]);
    }
  }

  lemma {:induction false} SumWithout(spans: map<nat, Span>, xs: seq<nat>, p: nat)
    requires NoDup(xs) && forall q :: q in xs ==> q in spans
    ensures SumFree(spans, Without(xs, p)) == SumFree(spans, xs) - if p in xs then |spans[p].objects| else 0
  {
    if xs != [] {
      assert xs[0] in xs;
      if xs[0] != p {
        SumWithout(spans, xs[1..], p);
        assert ([xs[0]] + Without(xs[1..], p))[1..] == Without(xs[1..], p);
      }
    }
  }

  /** One class's list and one of its spans change; the rest of the lists stay as they are. */
  lemma ListsStep(lists: seq<CentralList>, spans: map<nat, Span>, c: nat, l2: CentralList, p: nat,
                  spans2: map<nat, Span>)
    requires Lists(lists, spans) && c < |lists| && ListInv(spans2, c, l2)
    requires p in spans ==> spans[p].cl == c
    requires forall q :: q != p ==> (q in spans <==> q in spans2) && (q in spans ==> spans2[q] == spans[q])
    requires p in spans2 ==> spans2[p].cl == c && if spans2[p].objects == [] then p in l2.empty else p in l2.nonempty
    requires SameButFor(lists[c], l2, p)
    ensures Lists(lists[c := l2], spans2)
  {
    hide ListInv;
    var lists2 := lists[c := l2];
    forall d | 0 <= d < |lists2| ensures ListInv(spans2, d, lists2[d]) {
      if d != c { OtherList(spans, d, lists[d], c, p, spans2); }
    }
    forall q | q in spans2 ensures OnList(lists2, q, spans2[q]) {
      if q != p { assert OnList(lists, q, spans[q]); }
    }
  }

  /** The list of another class does not notice. */
  lemma OtherList(spans: map<nat, Span>, d: nat, l: CentralList, c: nat, p: nat, spans2: map<nat, Span>)
    requires ListInv(spans, d, l) && d != c && (p in spans ==> spans[p].cl == c)
    requires forall q :: q != p ==> (q in spans <==> q in spans2) && (q in spans ==> spans2[q] == spans[q])
    ensures ListInv(spans2, d, l)
  {
    assert p !in l.nonempty && p !in l.empty;
    SumUnchanged(spans, spans2, l.nonempty);
  }

  /** Apart from span p, the same spans are on the same two lists. */
  ghost predicate SameButFor(l: CentralList, l2: CentralList, p: nat) {
    forall q :: q != p ==> (q in l.nonempty <==> q in l2.nonempty) && (q in l.empty <==> q in l2.empty)
  }

  lemma FetchList(spans: map<nat, Span>, c: nat, l: CentralList, k: nat, l2: CentralList, sp2: Span)
    requires ListInv(spans, c, l) && l.nonempty != [] && l.nonempty[0] in spans
    requires var sp := spans[l.nonempty[0]]; k <= |sp.objects| && sp2.objects == sp.objects[k..] && sp2.cl == sp.cl
    requires l2 == if sp2.objects == [] then
                     l.(nonempty := l.nonempty[1..], empty := [l.nonempty[0]] + l.empty, counter := l.counter - k)
                   else l.(counter := l.counter - k)
    ensures var p := l.nonempty[0];
            && spans[p].cl == c && ListInv(spans[p := sp2], c, l2) && SameButFor(l, l2, p)
            && if sp2.objects == [] then p in l2.empty else p in l2.nonempty
  {
    var p := l.nonempty[0];
    assert p in l.nonempty && l.nonempty == [p] + l.nonempty[1..];
    SumChanged(spans, p, sp2, l.nonempty);
    assert p !in l.empty;
  }

  lemma FetchLists(lists: seq<CentralList>, spans: map<nat, Span>, c: nat, k: nat, l2: CentralList, sp2: Span)
    requires Lists(lists, spans) && c < |lists| && lists[c].nonempty != [] && lists[c].nonempty[0] in spans
    requires var sp := spans[lists[c].nonempty[0]];
             k <= |sp.objects| && sp2.objects == sp.objects[k..] && sp2.cl == sp.cl
    requires l2 == if sp2.objects == [] then
                     lists[c].(nonempty := lists[c].nonempty[1..], empty := [lists[c].nonempty[0]] + lists[c].empty,
                               counter := lists[c].counter - k)
                   else lists[c].(counter := lists[c].counter - k)
    ensures Lists(lists[c := l2], spans[lists[c].nonempty[0] := sp2])
  {
    hide ListInv;
    var p := lists[c].nonempty[0];
    FetchList(spans, c, lists[c], k, l2, sp2);
    ListsStep(lists, spans, c, l2, p, spans[p := sp2]);
  }

  lemma PutBackList(spans: map<nat, Span>, c: nat, l: CentralList, o: Obj, l2: CentralList, sp2: Span)
    requires ListInv(spans, c, l) && o.page in spans && spans[o.page].cl == c
    requires if spans[o.page].objects == [] then o.page in l.empty else o.page in l.nonempty
    requires sp2.objects == [o] + spans[o.page].objects && sp2.cl == c
    requires l2 == if spans[o.page].objects == [] then
                     l.(empty := Without(l.empty, o.page), nonempty := [o.page] + l.nonempty, counter := l.counter + 1)
                   else l.(counter := l.counter + 1)
    ensures ListInv(spans[o.page := sp2], c, l2) && SameButFor(l, l2, o.page) && o.page in l2.nonempty
  {
    var p, spans2 := o.page, spans[o.page := sp2];
    WithoutDrops(l.empty, p);
    if spans[p].objects == [] {
      assert p !in l.nonempty;
      SumUnchanged(spans, spans2, l.nonempty);
      assert l2.nonempty[1..] == l.nonempty;
    } else {
      assert p !in l.empty;
      SumChanged(spans, p, sp2, l.nonempty);
    }
  }

  lemma PutBackLists(lists: seq<CentralList>, spans: map<nat, Span>, c: nat, o: Obj, l2: CentralList, sp2: Span)
    requires Lists(lists, spans) && c < |lists| && o.page in spans && spans[o.page].cl == c
    requires sp2.objects == [o] + spans[o.page].objects && sp2.cl == c
    requires l2 == if spans[o.page].objects == [] then
                     lists[c].(empty := Without(lists[c].empty, o.page), nonempty := [o.page] + lists[c].nonempty,
                               counter := lists[c].counter + 1)
                   else lists[c].(counter := lists[c].counter + 1)
    ensures Lists(lists[c := l2], spans[o.page := sp2])
  {
    hide ListInv, Without;
    assert OnList(lists, o.page, spans[o.page]);
    PutBackList(spans, c, lists[c], o, l2, sp2);
    ListsStep(lists, spans, c, l2, o.page, spans[o.page := sp2]);
  }

  lemma RetireList(spans: map<nat, Span>, c: nat, l: CentralList, p: nat, n: nat, l2: CentralList)
    requires ListInv(spans, c, l) && p in spans && spans[p].cl == c && |spans[p].objects| + 1 == n
    requires if spans[p].objects == [] then p in l.empty else p in l.nonempty
    requires l2 == l.(nonempty := Without(l.nonempty, p), empty := Without(l.empty, p),
                      counter := l.counter + 1 - n, numSpans := l.numSpans - 1)
    ensures ListInv(spans - {p}, c, l2) && SameButFor(l, l2, p)
  {
    var spans2 := spans - {p};
    WithoutDrops(l.empty, p);
    WithoutDrops(l.nonempty, p);
    SumWithout(spans, l.nonempty, p);
    SumUnchanged(spans, spans2, l2.nonempty);
    assert p in l.nonempty <==> p !in l.empty;
  }

  lemma RetireLists(lists: seq<CentralList>, spans: map<nat, Span>, c: nat, p: nat, n: nat, l2: CentralList)
    requires Lists(lists, spans) && c < |lists| && p in spans && spans[p].cl == c && |spans[p].objects| + 1 == n
    requires l2 == lists[c].(nonempty := Without(lists[c].nonempty, p), empty := Without(lists[c].empty, p),
                             counter := lists[c].counter + 1 - n, numSpans := lists[c].numSpans - 1)
    ensures Lists(lists[c := l2], spans - {p})
  {
    hide ListInv, Without;
    assert OnList(lists, p, spans[p]);
    RetireList(spans, c, lists[c], p, n, l2);
    ListsStep(lists, spans, c, l2, p, spans - {p});
  }

  lemma LinkLists(lists: seq<CentralList>, spans: map<nat, Span>, c: nat, p: nat, sp: Span, l2: CentralList)
    requires Lists(lists, spans) && c < |lists| && p !in spans && sp.cl == c && sp.objects != []
    requires l2 == lists[c].(nonempty := [p] + lists[c].nonempty, numSpans := lists[c].numSpans + 1,
                             counter := lists[c].counter + |sp.objects|)
    ensures Lists(lists[c := l2], spans[p := sp])
  {
    var l := lists[c];
    var spans2 := spans[p := sp];
    assert ListInv(spans, c, l);
    assert p !in l.nonempty && p !in l.empty;
    SumUnchanged(spans, spans2, l.nonempty);
    assert l2.nonempty[1..] == l.nonempty;
    assert ListInv(spans2, c, l2);
    ListsStep(lists, spans, c, l2, p, spans2);
  }

  // ----- objects of one span -----

  lemma FetchFree(spans: map<nat, Span>, loc: map<Obj, Place>, p: nat, k: nat, sp2: Span, t: nat)
    requires FreeLists(spans, loc) && p in spans && k <= |spans[p].objects| && sp2.objects == spans[p].objects[k..]
    ensures FreeLists(spans[p := sp2], Moved(loc, spans[p].objects[..k], InTransit(t)))
  {
    hide Moved, NoDup;
    var taken, left := spans[p].objects[..k], sp2.objects;
    var spans2, loc2 := spans[p := sp2], Moved(loc, taken, InTransit(t));
    CutParts(spans[p].objects, k);
    MovedPlaces(loc, taken, InTransit(t));
    forall q, o | q in spans2 && o in spans2[q].objects ensures o.page == q && o in loc2 && loc2[o] == Free {
      assert o in spans[q].objects;
    }
    forall o | o in loc2 && loc2[o] == Free ensures o.page in spans2 && o in spans2[o.page].objects {
      assert o in loc && loc[o] == Free;
    }
  }

  /** A list without repetition, cut in two. */
  lemma CutParts(xs: seq<Obj>, k: nat)
    requires NoDup(xs) && k <= |xs|
    ensures NoDup(xs[k..]) && forall o :: o in xs <==> o in xs[..k] || o in xs[k..]
    ensures forall o :: o in xs[k..] ==> o !in xs[..k]
  {
    assert xs == xs[..k] + xs[k..];
    NoDupParts(xs[..k], xs[k..]);
  }

  lemma MovedPlaces(loc: map<Obj, Place>, xs: seq<Obj>, to: Place)
    ensures Moved(loc, xs, to).Keys == loc.Keys
    ensures forall o :: o in loc ==> Moved(loc, xs, to)[o] == if o in xs then to else loc[o]
  {
  }

  lemma PutBackFree(spans: map<nat, Span>, loc: map<Obj, Place>, o: Obj, sp2: Span)
    requires FreeLists(spans, loc) && o in loc && !loc[o].Free? && o.page in spans
    requires sp2.objects == [o] + spans[o.page].objects
    ensures FreeLists(spans[o.page := sp2], loc[o := Free])
  {
    assert o !in spans[o.page].objects;
    forall x | x in sp2.objects ensures x == o || x in spans[o.page].objects {}
    forall x | x in spans[o.page].objects ensures x in sp2.objects {
      var i :| 0 <= i < |spans[o.page].objects| && spans[o.page].objects[i] == x;
      assert sp2.objects[i + 1] == x;
    }
    assert sp2.objects[0] == o;
    var spans2, loc2 := spans[o.page := sp2], loc[o := Free];
    forall q, x | q in spans2 && x in spans2[q].objects ensures x.page == q && x in loc2 && loc2[x] == Free {
      if q != o.page { assert x in spans[q].objects; }
    }
  }

  /** With all but one of a span's n objects on its free list, the one object out is the only
      one not on it. */
  lemma OnlyOneOut(p: nat, n: nat, xs: seq<Obj>, o: Obj)
    requires NoDup(xs) && |xs| + 1 == n && o.page == p && o.index < n && o !in xs
    requires forall x :: x in xs ==> x.page == p && x.index < n
    ensures forall i :: 0 <= i < n ==> Obj(p, i) == o || Obj(p, i) in xs
  {
    var all := AllObjects(p, n);
    var here := (set x | x in xs) + {o};
    assert |set x | x in xs| == |xs| by { DistinctCount(xs); }
    assert here <= all;
    SubsetEqual(here, all);
    forall i | 0 <= i < n ensures Obj(p, i) == o || Obj(p, i) in xs {
      assert Obj(p, i) in all;
    }
  }

  ghost function AllObjects(p: nat, n: nat): (r: set<Obj>)
    ensures |r| == n
    ensures forall x :: x in r <==> x.page == p && x.index < n
  {
    if n == 0 then {} else AllObjects(p, n - 1) + {Obj(p, n - 1)}
  }

  lemma {:induction false} DistinctCount<T>(xs: seq<T>)
    requires NoDup(xs)
    ensures |set x | x in xs| == |xs|
  {
    if xs != [] {
      DistinctCount(xs[1..]);
      assert (set x | x in xs) == {xs[0]} + set x | x in xs[1..];
    }
  }

  lemma {:induction false} SubsetEqual<T>(a: set<T>, b: set<T>)
    requires a <= b && |a| == |b|
    ensures a == b
  {
    if x :| x in a {
      SubsetEqual(a - {x}, b - {x});
    }
  }
}
