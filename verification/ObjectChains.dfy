/** tcmalloc's chains of free objects at the level of their links. The first word of a free object
    holds the address of the next one; `next` is that word for every object, and 0 is NULL. */
module ObjectChains {
  import opened Basics

  type Addr = nat
  const NULL: Addr := 0

  function At(xs: seq<Addr>, i: nat): Addr {
    if i < |xs| then xs[i] else NULL
  }

  /** Following links from `head` visits exactly xs and then ends. */
  ghost predicate Chain(next: map<Addr, Addr>, head: Addr, xs: seq<Addr>) {
    && head == At(xs, 0) && NoDup(xs)
    && forall i :: 0 <= i < |xs| ==> xs[i] != NULL && xs[i] in next && next[xs[i]] == At(xs, i + 1)
  }

  /** The links determine the chain. */
  lemma {:induction false} ChainUnique(next: map<Addr, Addr>, head: Addr, xs: seq<Addr>, ys: seq<Addr>)
    requires Chain(next, head, xs) && Chain(next, head, ys)
    ensures xs == ys
  {
    var i := 0;
    while i < |xs| && i < |ys|
      invariant i <= |xs| && i <= |ys| && xs[..i] == ys[..i] && At(xs, i) == At(ys, i)
    {
      assert xs[..i + 1] == xs[..i] + [xs[i]] && ys[..i + 1] == ys[..i] + [ys[i]];
      i := i + 1;
    }
  }

  lemma ChainFrame(next: map<Addr, Addr>, next2: map<Addr, Addr>, head: Addr, xs: seq<Addr>)
    requires Chain(next, head, xs) && forall x :: x in xs ==> x in next2 && x in next && next2[x] == next[x]
    ensures Chain(next2, head, xs)
  {
    forall i | 0 <= i < |xs| ensures xs[i] in next2 && next2[xs[i]] == At(xs, i + 1) {
      assert xs[i] in xs;
    }
  }

  class LinkMemory {
    var next: map<Addr, Addr>

    constructor (next: map<Addr, Addr>)
      ensures this.next == next
    {
      this.next := next;
    }

    /** SLL_Push */
    method Push(list: Addr, element: Addr, ghost xs: seq<Addr>) returns (list2: Addr)
      requires Chain(next, list, xs) && element != NULL && element !in xs
      modifies this
      ensures next == old(next)[element := list] && Chain(next, list2, [element] + xs)
    {
      next := next[element := list];
      list2 := element;
      PushChain(old(next), list, xs, element);
    }

    /** SLL_Pop */
    method Pop(list: Addr, ghost xs: seq<Addr>) returns (result: Addr, list2: Addr)
      requires Chain(next, list, xs) && xs != []
      ensures result == xs[0] && Chain(next, list2, xs[1..])
    {
      result := list;
      list2 := next[list];
    }

    /** SLL_PopRange: cuts the first n objects off, as a chain of their own. */
    method PopRange(head: Addr, n: nat, ghost xs: seq<Addr>) returns (head2: Addr, start: Addr, end: Addr)
      requires Chain(next, head, xs) && n <= |xs|
      modifies this
      ensures next.Keys == old(next).Keys && forall a :: a in next && a !in xs ==> next[a] == old(next)[a]
      ensures Chain(next, start, xs[..n]) && Chain(next, head2, xs[n..])
      ensures end == if n == 0 then NULL else xs[n - 1]
    {
      if n == 0 {
        assert xs[0..] == xs;
        return head, NULL, NULL;
      }
      var tmp := head;
      var i := 1;
      while i < n
        invariant 1 <= i <= n && tmp == xs[i - 1]
      {
        tmp := next[tmp];
        i := i + 1;
      }
      start, end, head2 := head, tmp, next[tmp];
      next := next[tmp := NULL];
      CutAt(old(next), next, head, xs, n);
    }

    /** SLL_PushRange: puts the chain start..end in front of head. */
    method PushRange(head: Addr, start: Addr, end: Addr, ghost xs: seq<Addr>, ghost ys: seq<Addr>) returns (head2: Addr)
      requires Chain(next, head, xs) && Chain(next, start, ys) && NoDup(ys + xs)
      requires ys != [] ==> end == ys[|ys| - 1]
      modifies this
      ensures Chain(next, head2, ys + xs)
      ensures next == if ys == [] then old(next) else old(next)[end := head]
    {
      if start == NULL {
        assert ys == [] && ys + xs == xs;
        return head;
      }
      next := next[end := head];
      head2 := start;
      JoinAt(old(next), head, start, end, xs, ys);
    }

    /** SLL_Size */
    method Size(head: Addr, ghost xs: seq<Addr>) returns (count: nat)
      requires Chain(next, head, xs)
      ensures count == |xs|
    {
      count := 0;
      var h := head;
      while h != NULL
        invariant count <= |xs| && h == At(xs, count)
        decreases |xs| - count
      {
        count := count + 1;
        h := next[h];
      }
    }
  }

  /** Ending a chain after its n-th object leaves two chains. */
  lemma CutAt(next: map<Addr, Addr>, next2: map<Addr, Addr>, head: Addr, xs: seq<Addr>, n: nat)
    requires Chain(next, head, xs) && 0 < n <= |xs| && next2 == next[xs[n - 1] := NULL]
    ensures Chain(next2, head, xs[..n]) && Chain(next2, At(xs, n), xs[n..])
  {
    forall i | 0 <= i < |xs[n..]| ensures xs[n..][i] in next2 && next2[xs[n..][i]] == At(xs[n..], i + 1) {
      assert xs[n..][i] == xs[n + i] && xs[n + i] != xs[n - 1] && next[xs[n + i]] == At(xs, n + i + 1);
    }
    forall i | 0 <= i < n ensures xs[..n][i] in next2 && next2[xs[..n][i]] == At(xs[..n], i + 1) {
      assert next[xs[i]] == At(xs, i + 1);
    }
  }

  lemma JoinAt(next: map<Addr, Addr>, head: Addr, start: Addr, end: Addr, xs: seq<Addr>, ys: seq<Addr>)
    requires Chain(next, head, xs) && Chain(next, start, ys) && NoDup(ys + xs) && ys != [] && end == ys[|ys| - 1]
    ensures Chain(next[end := head], start, ys + xs)
  {
    var zs, next2 := ys + xs, next[end := head];
    forall i | 0 <= i < |zs| ensures zs[i] != NULL && zs[i] in next2 && next2[zs[i]] == At(zs, i + 1) {
      if i < |ys| {
        assert zs[i] == ys[i] && next[ys[i]] == At(ys, i + 1);
      } else {
        assert zs[i] == xs[i - |ys|] && next[zs[i]] == At(xs, i - |ys| + 1) && zs[|ys| - 1] != zs[i];
      }
    }
  }

  lemma PushChain(next: map<Addr, Addr>, head: Addr, xs: seq<Addr>, a: Addr)
    requires Chain(next, head, xs) && a != NULL && a !in xs
    ensures Chain(next[a := head], a, [a] + xs)
  {
    var ys := [a] + xs;
    forall i | 0 <= i < |ys|
      ensures ys[i] != NULL && ys[i] in next[a := head] && next[a := head][ys[i]] == At(ys, i + 1)
    {
      if i > 0 { assert ys[i] == xs[i - 1] && At(ys, i + 1) == At(xs, i) && xs[i - 1] in xs; }
    }
  }

  lemma ChainStep(next: map<Addr, Addr>, head: Addr, xs: seq<Addr>)
    requires Chain(next, head, xs) && head != NULL
    ensures xs != [] && head == xs[0] && head in next && Chain(next, next[head], xs[1..]) && head !in xs[1..]
    ensures forall x :: x in xs[1..] ==> x in next
  {
    forall i | 0 <= i < |xs[1..]|
      ensures xs[1..][i] in next && next[xs[1..][i]] == At(xs[1..], i + 1) && xs[1..][i] != head
    {
      assert xs[1..][i] == xs[i + 1] && next[xs[i + 1]] == At(xs, i + 2);
    }
  }
}
