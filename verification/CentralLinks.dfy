/** One central free list at the level of object links: fetching from spans, building the chain
    RemoveRange returns, giving objects back, and carving a new span. */
module CentralLinks {
  import opened Basics
  import opened ObjectChains

  /** What the links mean: each span's free list, and the bookkeeping beside it. */
  datatype Links = Links(free: map<nat, seq<Addr>>, refcount: map<nat, int>, nonempty: seq<nat>, empty: seq<nat>,
                         counter: int, numSpans: int)

  /** Up to n objects leave the first non-empty span. */
  function Fetched(l: Links, n: nat): Links
    requires l.nonempty != [] && l.nonempty[0] in l.free && l.nonempty[0] in l.refcount
  {
    var p := l.nonempty[0];
    var k := Min(n, |l.free[p]|);
    var l1 := l.(free := l.free[p := l.free[p][k..]], refcount := l.refcount[p := l.refcount[p] + k],
      counter := l.counter - k);
    if k == |l.free[p]| then l1.(nonempty := l.nonempty[1..], empty := [p] + l.empty) else l1
  }

  ghost predicate Disjoint(free: map<nat, seq<Addr>>) {
    forall p, q, a :: p in free && q in free && p != q && a in free[p] ==> a !in free[q]
  }

  /** Address a is on some free list. */
  ghost predicate IsFree(free: map<nat, seq<Addr>>, a: Addr) {
    exists p :: p in free && a in free[p]
  }

  /** The links are those of the free lists, and every span is on the list it should be on. */
  ghost predicate Linked(next: map<Addr, Addr>, objects: map<nat, Addr>, l: Links) {
    && objects.Keys == l.refcount.Keys == l.free.Keys
    && (forall p :: p in l.free ==> Chain(next, objects[p], l.free[p]))
    && Disjoint(l.free)
    && NoDup(l.nonempty + l.empty)
    && (forall p :: p in l.nonempty ==> p in l.free && l.free[p] != [])
    && (forall p :: p in l.empty ==> p in l.free && l.free[p] == [])
  }

  class SpanLists {
    var next: map<Addr, Addr>
    var objects: map<nat, Addr>
    var refcount: map<nat, int>
    var nonempty: seq<nat>
    var empty: seq<nat>
    var counter: int
    var numSpans: int
    ghost var free: map<nat, seq<Addr>>

    ghost function View(): Links
      reads this
    {
      Links(free, refcount, nonempty, empty, counter, numSpans)
    }

    ghost predicate Valid()
      reads this
    {
      Linked(next, objects, View())
    }

    constructor ()
      ensures Valid() && View() == Links(map[], map[], [], [], 0, 0)
    {
      next, objects, refcount, nonempty, empty, counter, numSpans, free := map[], map[], map[], [], [], 0, 0, map[];
    }

    /** The walk of FetchFromOneSpans: at least one link, at most n, and no further than NULL. */
    method Walk(head: Addr, n: nat, ghost xs: seq<Addr>) returns (result: nat, end: Addr, curr: Addr)
      requires Chain(next, head, xs) && xs != [] && n > 0
      ensures result == Min(n, |xs|) && end == xs[result - 1] && curr == At(xs, result)
      ensures curr == NULL <==> result == |xs|
    {
      result, curr, end := 0, head, NULL;
      while true
        invariant result < n && result < |xs| && curr == xs[result]
        decreases |xs| - result
      {
        end := curr;
        curr := next[curr];
        result := result + 1;
        if !(result < n && curr != NULL) { break; }
      }
    }

    /** FetchFromOneSpans: cuts the first non-empty span's list after at most n objects, and moves
        the span to the empty list when nothing is left. */
    method FetchFromOneSpans(n: nat) returns (result: nat, start: Addr, end: Addr, ghost taken: seq<Addr>)
      requires Valid() && n > 0
      modifies this
      ensures Valid() && result == |taken| <= n
      ensures old(nonempty) == [] ==> result == 0 && View() == old(View()) && next == old(next)
      ensures old(nonempty) != [] ==>
                && result > 0 && View() == Fetched(old(View()), n)
                && taken == old(free[nonempty[0]])[..Min(n, |old(free[nonempty[0]])|)]
                && end == taken[|taken| - 1] && next == old(next)[end := NULL]
      ensures Chain(next, start, taken) && forall a :: a in taken ==> !IsFree(free, a) && IsFree(old(free), a)
    {
      hide Chain, Linked, IsFree;
      result, start, end, taken := 0, NULL, NULL, [];
      if nonempty == [] {
        EmptyChain(next);
        return;
      }
      var p := nonempty[0];
      FirstSpan(next, objects, View());
      ghost var xs := free[p];
      var curr;
      result, end, curr := Walk(objects[p], n, xs);
      FetchKeeps(next, objects, View(), n, result);
      start, taken := objects[p], xs[..result];
      if curr == NULL {
        nonempty, empty := nonempty[1..], [p] + empty;
      }
      objects := objects[p := curr];
      next := next[end := NULL];
      refcount := refcount[p := refcount[p] + result];
      counter := counter - result;
      free := free[p := xs[result..]];
    }

    /** SLL_PushRange onto the chain being built. */
    method Prepend(start: Addr, head: Addr, tail: Addr, ghost got: seq<Addr>, ghost taken: seq<Addr>)
      returns (start2: Addr)
      requires Valid() && Chain(next, start, got) && Chain(next, head, taken) && NoDup(taken + got)
      requires taken != [] && tail == taken[|taken| - 1] && forall a :: a in taken ==> !IsFree(free, a)
      modifies this`next
      ensures Valid() && Chain(next, start2, taken + got)
    {
      JoinAt(next, start, head, tail, got, taken);
      assert tail in taken;
      ChainsKept(next, next[tail := start], objects, free, tail);
      next := next[tail := start];
      start2 := head;
    }

    /** RemoveRange's loop once the span lists are locked: fetch until n objects are gathered or
        none is left, each batch going in front of what is there. */
    method RemoveRange(n: nat) returns (result: nat, start: Addr, end: Addr, ghost got: seq<Addr>)
      requires Valid() && n > 0
      modifies this
      ensures Valid() && result == |got| <= n && (result < n ==> nonempty == [])
      ensures Chain(next, start, got) && (got != [] ==> end == got[|got| - 1])
      ensures forall a :: a in got ==> !IsFree(free, a)
      ensures forall a :: IsFree(old(free), a) <==> a in got || IsFree(free, a)
      ensures counter == old(counter) - result
    {
      hide Chain, Linked, IsFree, Fetched;
      ghost var start0 := View();
      if nonempty != [] { FirstSpan(next, objects, View()); }
      result, start, end, got := FetchFromOneSpans(n);
      FetchedSplits(start0, n, free, got);
      FetchedCounts(start0, n);
      while 0 < result < n
        invariant Valid() && result == |got| <= n && (result == 0 ==> nonempty == [])
        invariant Chain(next, start, got) && (got != [] ==> end == got[|got| - 1])
        invariant forall a :: a in got ==> !IsFree(free, a)
        invariant forall a :: IsFree(old(free), a) <==> a in got || IsFree(free, a)
        invariant counter == old(counter) - result
        decreases n - result
      {
        ghost var before, next0 := View(), next;
        if nonempty != [] { FirstSpan(next, objects, View()); }
        var k, head, tail;
        ghost var taken;
        k, head, tail, taken := FetchFromOneSpans(n - result);
        if k == 0 { break; }
        FetchedSplits(before, n - result, free, taken);
        FetchedCounts(before, n - result);
        BatchesApart(next0, next, start, got, head, taken, tail);
        start := Prepend(start, head, tail, got, taken);
        got := taken + got;
        result := result + k;
      }
    }

    /** ReleaseToSpans for an object of span p: a span with no free object moves to the non-empty
        list first, and one whose last object this was leaves the lists altogether. */
    method ReleaseToSpans(obj: Addr, p: nat, perSpan: nat)
      requires Valid() && CanRelease(View(), obj, p)
      modifies this
      ensures Valid() && View() == Released(old(View()), obj, p, perSpan)
      ensures forall a :: a in old(next) && a != obj ==> a in next && next[a] == old(next)[a]
    {
      hide Chain, Linked, IsFree, NoDup, Without;
      ReleaseKeeps(next, objects, View(), obj, p, perSpan);
      var nonempty1 := nonempty;
      if objects[p] == NULL {
        nonempty1 := [p] + nonempty;
        empty := Without(empty, p);
      }
      if refcount[p] - 1 == 0 {
        counter, numSpans := counter + 1 - perSpan, numSpans - 1;
        nonempty := Without(nonempty1, p);
        objects, refcount, free := objects - {p}, refcount - {p}, free - {p};
      } else {
        counter, nonempty := counter + 1, nonempty1;
        next := next[obj := objects[p]];
        objects, refcount := objects[p := obj], refcount[p := refcount[p] - 1];
        free := free[p := [obj] + free[p]];
      }
    }

    /** ReleaseListToSpans: the link is read before the object is given back, since giving it back
        overwrites the link. */
    method ReleaseListToSpans(start: Addr, home: map<Addr, nat>, perSpan: nat, ghost xs: seq<Addr>)
      requires Valid() && Chain(next, start, xs) && CanReleaseAll(View(), xs, home, perSpan)
      modifies this
      ensures Valid() && View() == ReleasedAll(old(View()), xs, home, perSpan)
    {
      var s := start;
      ghost var k := 0;
      while s != NULL
        invariant Valid() && k <= |xs| && Chain(next, s, xs[k..]) && CanReleaseAll(View(), xs[k..], home, perSpan)
        invariant ReleasedAll(View(), xs[k..], home, perSpan) == ReleasedAll(old(View()), xs, home, perSpan)
        decreases |xs| - k
      {
        hide Linked, IsFree, Without, Released, CanRelease;
        ghost var ys := xs[k..];
        ChainStep(next, s, ys);
        assert ys[1..] == xs[k + 1..];
        var nxt := next[s];
        ghost var next0 := next;
        ReleaseToSpans(s, home[s], perSpan);
        ChainFrame(next0, next, nxt, ys[1..]);
        s := nxt;
        k := k + 1;
      }
    }

    /** Populate's splitting loop: links the whole objects that fit, lowest address first. */
    method Carve(base: Addr, bytes: nat, size: nat) returns (head: Addr, num: nat, ghost xs: seq<Addr>)
      requires base > 0 && size > 0
      modifies this`next
      ensures num == bytes / size == |xs| && (forall i :: 0 <= i < num ==> xs[i] == base + i * size)
      ensures Chain(next, head, xs)
      ensures Untouched(old(next), next, xs)
    {
      var ptr, limit, tail := base, base + bytes, NULL;
      head, num, xs := NULL, 0, [];
      while ptr + size <= limit
        invariant num == |xs| && ptr == base + num * size <= limit
        invariant ptr >= base && (num == 0 <==> tail == NULL) && (num == 0 ==> head == NULL)
        invariant num > 0 ==> Strip(next, base, size, xs) && head == base && tail == xs[num - 1] == ptr - size
        invariant Untouched(old(next), next, xs)
        decreases limit - ptr
      {
        hide Strip, Untouched;
        MulStep(num, size);
        if tail == NULL {
          head := ptr;
          StripFirst(next, base, size);
        } else {
          StripExtend(old(next), next, base, size, xs);
          next := next[tail := ptr];
        }
        UntouchedMore(old(next), next, xs, ptr);
        tail := ptr;
        xs := xs + [ptr];
        ptr := ptr + size;
        num := num + 1;
      }
      if tail != NULL {
        StripEnd(old(next), next, base, size, xs);
        next := next[tail := NULL];
        forall i | 0 <= i < num ensures xs[i] == base + i * size { StepsAdd(base, size, xs, i); }
      }
      DivisionIs(bytes, size, num);
    }
  }

  /** A row of objects from base, each linked to the next; the last link is not set yet. */
  ghost predicate Strip(next: map<Addr, Addr>, base: Addr, size: nat, xs: seq<Addr>) {
    && xs != [] && xs[0] == base && base > 0 && size > 0 && Steps(size, xs) && Rising(xs) && LinkedUp(next, xs)
  }

  ghost predicate Steps(size: nat, xs: seq<Addr>) {
    forall i :: 0 <= i < |xs| - 1 ==> xs[i + 1] == xs[i] + size
  }

  ghost predicate Rising(xs: seq<Addr>) {
    forall i, j :: 0 <= i < j < |xs| ==> xs[i] < xs[j]
  }

  ghost predicate LinkedUp(next: map<Addr, Addr>, xs: seq<Addr>) {
    forall i :: 0 <= i < |xs| - 1 ==> xs[i] in next && next[xs[i]] == xs[i + 1]
  }

  lemma StepsExtend(size: nat, xs: seq<Addr>)
    requires Steps(size, xs) && xs != []
    ensures Steps(size, xs + [xs[|xs| - 1] + size])
  {
  }

  lemma RisingExtend(xs: seq<Addr>, a: Addr)
    requires Rising(xs) && xs != [] && xs[|xs| - 1] < a
    ensures Rising(xs + [a])
  {
    forall i | 0 <= i < |xs| ensures xs[i] < a {
      assert i < |xs| - 1 ==> xs[i] < xs[|xs| - 1];
    }
  }

  lemma LinkedUpExtend(next: map<Addr, Addr>, xs: seq<Addr>, a: Addr)
    requires LinkedUp(next, xs) && Rising(xs) && xs != []
    ensures LinkedUp(next[xs[|xs| - 1] := a], xs + [a])
  {
    forall i | 0 <= i < |xs| - 1 ensures xs[i] != xs[|xs| - 1] {
      assert xs[i] < xs[|xs| - 1];
    }
  }

  ghost predicate Untouched(before: map<Addr, Addr>, next: map<Addr, Addr>, xs: seq<Addr>) {
    forall a :: a in before && a !in xs ==> a in next && next[a] == before[a]
  }

  lemma StripFirst(next: map<Addr, Addr>, base: Addr, size: nat)
    requires base > 0 && size > 0
    ensures Strip(next, base, size, [base])
  {
  }

  lemma StripExtend(before: map<Addr, Addr>, next: map<Addr, Addr>, base: Addr, size: nat, xs: seq<Addr>)
    requires Strip(next, base, size, xs)
    ensures var last := xs[|xs| - 1]; Strip(next[last := last + size], base, size, xs + [last + size])
    ensures Untouched(before, next, xs) ==> Untouched(before, next[xs[|xs| - 1] := xs[|xs| - 1] + size], xs)
  {
    hide Steps, Rising, LinkedUp;
    var last := xs[|xs| - 1];
    assert last in xs;
    StepsExtend(size, xs);
    RisingExtend(xs, last + size);
    LinkedUpExtend(next, xs, last + size);
  }

  lemma StripEnd(before: map<Addr, Addr>, next: map<Addr, Addr>, base: Addr, size: nat, xs: seq<Addr>)
    requires Strip(next, base, size, xs)
    ensures Chain(next[xs[|xs| - 1] := NULL], base, xs)
    ensures Untouched(before, next, xs) ==> Untouched(before, next[xs[|xs| - 1] := NULL], xs)
  {
    assert xs[|xs| - 1] in xs;
    forall i | 0 <= i < |xs| ensures xs[i] != NULL { assert i > 0 ==> xs[0] < xs[i]; }
    forall i | 0 <= i < |xs| - 1 ensures xs[i] != xs[|xs| - 1] {}
  }

  lemma UntouchedMore(before: map<Addr, Addr>, next: map<Addr, Addr>, xs: seq<Addr>, a: Addr)
    requires Untouched(before, next, xs)
    ensures Untouched(before, next, xs + [a])
  {
  }

  lemma MulStep(n: nat, size: nat)
    ensures (n + 1) * size == n * size + size
  {
  }

  lemma DivisionIs(a: nat, b: nat, q: nat)
    requires b > 0 && q * b <= a < q * b + b
    ensures a / b == q
  {
    var r := a / b;
    assert r * b <= a < r * b + b;
    assert (r + 1) * b == r * b + b && (q + 1) * b == q * b + b;
    if r < q { MulMono(r + 1, q, b); } else if q < r { MulMono(q + 1, r, b); }
  }

  /** Steps of `size` from base are multiples of it. */
  lemma {:induction false} StepsAdd(base: Addr, size: nat, xs: seq<Addr>, i: nat)
    requires i < |xs| && xs[0] == base && forall j :: 0 <= j < |xs| - 1 ==> xs[j + 1] == xs[j] + size
    ensures xs[i] == base + i * size
  {
    if i > 0 {
      StepsAdd(base, size, xs, i - 1);
      assert xs[i - 1 + 1] == xs[i - 1] + size;
      assert i * size == (i - 1) * size + size;
    }
  }

  /** Object a of span p is out, and p is a listed span. */
  ghost predicate CanRelease(l: Links, a: Addr, p: nat) {
    && a != NULL && p in l.free && p in l.refcount && l.refcount[p] > 0 && !IsFree(l.free, a)
    && if l.free[p] == [] then p in l.empty else p in l.nonempty
  }

  function Released(l: Links, a: Addr, p: nat, perSpan: nat): Links
    requires p in l.free && p in l.refcount
  {
    var l1 := if l.free[p] == [] then l.(empty := Without(l.empty, p), nonempty := [p] + l.nonempty) else l;
    if l.refcount[p] - 1 == 0 then
      l1.(nonempty := Without(l1.nonempty, p), counter := l.counter + 1 - perSpan, numSpans := l.numSpans - 1,
      free := l.free - {p}, refcount := l.refcount - {p})
    else
      l1.(counter := l.counter + 1, free := l.free[p := [a] + l.free[p]],
        refcount := l.refcount[p := l.refcount[p] - 1])
  }

  ghost predicate CanReleaseAll(l: Links, xs: seq<Addr>, home: map<Addr, nat>, perSpan: nat)
    decreases |xs|
  {
    xs == [] || (xs[0] in home && CanRelease(l, xs[0], home[xs[0]])
                 && CanReleaseAll(Released(l, xs[0], home[xs[0]], perSpan), xs[1..], home, perSpan))
  }

  ghost function ReleasedAll(l: Links, xs: seq<Addr>, home: map<Addr, nat>, perSpan: nat): Links
    requires CanReleaseAll(l, xs, home, perSpan)
    decreases |xs|
  {
    if xs == [] then l else ReleasedAll(Released(l, xs[0], home[xs[0]], perSpan), xs[1..], home, perSpan)
  }

  lemma ListsApart(xs: seq<nat>, ys: seq<nat>)
    ensures NoDup(xs + ys) <==> NoDup(xs) && NoDup(ys) && forall x :: x in xs ==> x !in ys
  {
    var zs := xs + ys;
    if NoDup(zs) {
      forall i, j | 0 <= i < j < |xs| ensures xs[i] != xs[j] { assert zs[i] != zs[j]; }
      forall i, j | 0 <= i < j < |ys| ensures ys[i] != ys[j] { assert zs[|xs| + i] != zs[|xs| + j]; }
      forall i, j | 0 <= i < |xs| && 0 <= j < |ys| ensures xs[i] != ys[j] { assert zs[i] != zs[|xs| + j]; }
    } else if NoDup(xs) && NoDup(ys) {
      var i, j :| 0 <= i < j < |zs| && zs[i] == zs[j];
      assert i < |xs| <= j;
      assert xs[i] == zs[j] == ys[j - |xs|] && xs[i] in xs && ys[j - |xs|] in ys;
    }
  }

  /** The lists after ReleaseToSpans: disjoint, without repetition, each span where it belongs. */
  lemma ReleaseLists(l: Links, a: Addr, p: nat, perSpan: nat)
    requires CanRelease(l, a, p) && NoDup(l.nonempty + l.empty)
    requires forall q :: q in l.nonempty ==> q in l.free && l.free[q] != []
    requires forall q :: q in l.empty ==> q in l.free && l.free[q] == []
    ensures var l2 := Released(l, a, p, perSpan);
            && NoDup(l2.nonempty + l2.empty)
            && (forall q :: q in l2.nonempty ==> q in l2.free && l2.free[q] != [])
            && (forall q :: q in l2.empty ==> q in l2.free && l2.free[q] == [])
  {
    var l2 := Released(l, a, p, perSpan);
    ListsApart(l.nonempty, l.empty);
    WithoutDrops(l.empty, p);
    var ne := if l.free[p] == [] then [p] + l.nonempty else l.nonempty;
    assert NoDup(ne);
    WithoutDrops(ne, p);
    ListsApart(l2.nonempty, l2.empty);
  }

  lemma ReleaseKeeps(next: map<Addr, Addr>, objects: map<nat, Addr>, l: Links, a: Addr, p: nat, perSpan: nat)
    requires Linked(next, objects, l) && CanRelease(l, a, p)
    ensures p in objects && p in l.refcount && (objects[p] == NULL <==> l.free[p] == [])
    ensures var l2 := Released(l, a, p, perSpan);
            if l.refcount[p] - 1 == 0 then Linked(next, objects - {p}, l2)
            else Linked(next[a := objects[p]], objects[p := a], l2)
  {
    hide NoDup, Without;
    ReleaseLists(l, a, p, perSpan);
    var l2 := Released(l, a, p, perSpan);
    assert Chain(next, objects[p], l.free[p]);
    if l.refcount[p] - 1 != 0 {
      var next2, objects2 := next[a := objects[p]], objects[p := a];
      PushChain(next, objects[p], l.free[p], a);
      forall q | q in l2.free ensures Chain(next2, objects2[q], l2.free[q]) {
        if q != p {
          assert Chain(next, objects[q], l.free[q]);
          assert a !in l.free[q];
          ChainFrame(next, next2, objects[q], l.free[q]);
        }
      }
      PushDisjoint(l.free, p, a);
    }
  }

  lemma PushDisjoint(free: map<nat, seq<Addr>>, p: nat, a: Addr)
    requires Disjoint(free) && p in free && !IsFree(free, a)
    ensures Disjoint(free[p := [a] + free[p]])
  {
  }

  lemma FirstSpan(next: map<Addr, Addr>, objects: map<nat, Addr>, l: Links)
    requires Linked(next, objects, l) && l.nonempty != []
    ensures var p := l.nonempty[0];
            p in l.free && p in l.refcount && p in objects && l.free[p] != [] && Chain(next, objects[p], l.free[p])
  {
    assert l.nonempty[0] in l.nonempty;
  }

  lemma FetchKeeps(next: map<Addr, Addr>, objects: map<nat, Addr>, l: Links, n: nat, k: nat)
    requires Linked(next, objects, l) && l.nonempty != [] && n > 0
    requires l.nonempty[0] in l.free && l.nonempty[0] in l.refcount && k == Min(n, |l.free[l.nonempty[0]]|) > 0
    ensures var p := l.nonempty[0];
            var xs, next2 := l.free[p], next[l.free[p][k - 1] := NULL];
            && Linked(next2, objects[p := At(xs, k)], Fetched(l, n)) && p in objects
            && Chain(next2, objects[p], xs[..k])
            && forall a :: a in xs[..k] ==> !IsFree(Fetched(l, n).free, a) && IsFree(l.free, a)
  {
    var p := l.nonempty[0];
    var xs, end := l.free[p], l.free[p][k - 1];
    var l2 := Fetched(l, n);
    assert p in l.nonempty && end in xs;
    FrontMoves(l.nonempty, l.empty);
    CutAt(next, next[end := NULL], objects[p], xs, k);
    CutDisjoint(l.free, p, xs, k);
    CutFrames(next, next[end := NULL], objects, l.free, p, end);
  }

  lemma FetchedCounts(l: Links, n: nat)
    requires l.nonempty != [] ==> l.nonempty[0] in l.free && l.nonempty[0] in l.refcount
    ensures l.nonempty != [] ==> Fetched(l, n).counter == l.counter - Min(n, |l.free[l.nonempty[0]]|)
  {
  }

  /** The batch just fetched shares nothing with what is already gathered. */
  lemma BatchesApart(next0: map<Addr, Addr>, next: map<Addr, Addr>, start: Addr, got: seq<Addr>, head: Addr,
                     taken: seq<Addr>, tail: Addr)
    requires Chain(next0, start, got) && Chain(next, head, taken) && next == next0[tail := NULL] && tail !in got
    requires forall a :: a in got ==> a !in taken
    ensures Chain(next, start, got) && NoDup(taken + got)
  {
    ChainFrame(next0, next, start, got);
    forall i, j | 0 <= i < |taken| && 0 <= j < |got| ensures taken[i] != got[j] {
      assert got[j] in got;
    }
  }

  lemma EmptyChain(next: map<Addr, Addr>)
    ensures Chain(next, NULL, [])
  {
  }

  lemma FrontMoves(xs: seq<nat>, ys: seq<nat>)
    requires xs != [] && NoDup(xs + ys)
    ensures NoDup(xs[1..] + ([xs[0]] + ys)) && xs[0] !in xs[1..] && xs[0] !in ys
  {
    var all, moved := xs + ys, xs[1..] + ([xs[0]] + ys);
    var k := |xs| - 1;
    forall i, j | 0 <= i < j < |moved| ensures moved[i] != moved[j] {
      assert moved[i] == all[if i < k then i + 1 else if i == k then 0 else i];
      assert moved[j] == all[if j < k then j + 1 else if j == k then 0 else j];
    }
    forall i | 0 <= i < |ys| ensures ys[i] != xs[0] {
      assert all[|xs| + i] == ys[i] && all[0] == xs[0];
    }
    forall i | 0 <= i < |xs[1..]| ensures xs[1..][i] != xs[0] {
      assert all[i + 1] == xs[1..][i] && all[0] == xs[0];
    }
  }

  lemma CutDisjoint(free: map<nat, seq<Addr>>, p: nat, xs: seq<Addr>, k: nat)
    requires Disjoint(free) && p in free && free[p] == xs && NoDup(xs) && k <= |xs|
    ensures Disjoint(free[p := xs[k..]])
    ensures forall a :: a in xs[..k] ==> !IsFree(free[p := xs[k..]], a) && IsFree(free, a)
  {
    var free2 := free[p := xs[k..]];
    forall a | a in xs[..k] ensures !IsFree(free2, a) && IsFree(free, a) {
      assert a in free[p];
      var i :| 0 <= i < k && xs[i] == a;
      forall j | 0 <= j < |xs[k..]| ensures xs[k..][j] != a { assert xs[k..][j] == xs[k + j]; }
    }
  }

  lemma CutFrames(next: map<Addr, Addr>, next2: map<Addr, Addr>, objects: map<nat, Addr>, free: map<nat, seq<Addr>>,
                  p: nat, end: Addr)
    requires objects.Keys == free.Keys && p in free && end in free[p] && Disjoint(free) && next2 == next[end := NULL]
    requires forall q :: q in free ==> Chain(next, objects[q], free[q])
    ensures forall q :: q in free && q != p ==> Chain(next2, objects[q], free[q])
  {
    forall q | q in free && q != p ensures Chain(next2, objects[q], free[q]) {
      assert end !in free[q];
      ChainFrame(next, next2, objects[q], free[q]);
    }
  }

  lemma ChainsKept(next: map<Addr, Addr>, next2: map<Addr, Addr>, objects: map<nat, Addr>, free: map<nat, seq<Addr>>,
                   a: Addr)
    requires objects.Keys == free.Keys && !IsFree(free, a) && a in next2 && next2 == next[a := next2[a]]
    requires forall q :: q in free ==> Chain(next, objects[q], free[q])
    ensures forall q :: q in free ==> Chain(next2, objects[q], free[q])
  {
    forall q | q in free ensures Chain(next2, objects[q], free[q]) {
      ChainFrame(next, next2, objects[q], free[q]);
    }
  }

  /** What a fetch takes and what it leaves make up what was free. */
  lemma FetchedSplits(l: Links, n: nat, free2: map<nat, seq<Addr>>, taken: seq<Addr>)
    requires l.nonempty == [] ==> free2 == l.free && taken == []
    requires l.nonempty != [] ==> l.nonempty[0] in l.free && l.nonempty[0] in l.refcount
    requires l.nonempty != [] ==> free2 == Fetched(l, n).free
    requires l.nonempty != [] ==> taken == l.free[l.nonempty[0]][..Min(n, |l.free[l.nonempty[0]]|)]
    ensures forall a :: IsFree(l.free, a) <==> a in taken || IsFree(free2, a)
  {
    if l.nonempty != [] {
      var p := l.nonempty[0];
      var xs, k := l.free[p], Min(n, |l.free[p]|);
      assert xs == xs[..k] + xs[k..];
      forall a ensures IsFree(l.free, a) <==> a in taken || IsFree(free2, a) {
        if IsFree(l.free, a) {
          var q :| q in l.free && a in l.free[q];
          assert q in free2 && (a in free2[q] || a in taken);
        } else {
          assert a !in xs;
          assert forall q :: q in free2 && a in free2[q] ==> a in l.free[q];
        }
      }
    }
  }
}
