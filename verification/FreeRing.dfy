/** The debug allocator's delayed-free queue: a ring of entries, and the draining of it by callers that
    drop the lock part-way through. */
module FreeRing {
  const QUEUE_SIZE: nat := 1024
  const BATCH: nat := 4
  const OVERHEAD: nat := 160   // size of a queue entry itself

  /** A queued block. `no` is history: the number of the push that queued it. */
  datatype Entry = Entry(block: nat, size: nat, no: nat)

  function Cost(e: Entry): nat { e.size + OVERHEAD }

  function Sum(q: seq<Entry>): nat {
    if q == [] then 0 else Cost(q[0]) + Sum(q[1..])
  }

  lemma {:induction false} SumAppend(q: seq<Entry>, e: Entry)
    ensures Sum(q + [e]) == Sum(q) + Cost(e)
  {
    if q != [] {
      assert (q + [e])[1..] == q[1..] + [e];
      SumAppend(q[1..], e);
    }
  }

  /** The sizes of the queued blocks together. */
  function TotalSize(q: seq<Entry>): nat {
    if q == [] then 0 else TotalSize(q[..|q| - 1]) + q[|q| - 1].size
  }

  /** The accounted size of a queue: its blocks and 160 bytes for every entry. */
  lemma {:induction false} SumIs(q: seq<Entry>)
    ensures Sum(q) == TotalSize(q) + 160 * |q|
  {
    if q != [] {
      var n := |q| - 1;
      assert q == q[..n] + [q[n]];
      SumAppend(q[..n], q[n]);
      SumIs(q[..n]);
    }
  }

  predicate IsFull(q: seq<Entry>) { |q| == QUEUE_SIZE - 1 }

  /** The drain loop goes on. */
  predicate Over(q: seq<Entry>, size: nat, limit: nat) {
    size > limit || IsFull(q)
  }

  class FreeQueue {
    const q: array<Entry>
    var front: nat
    var back: nat

    ghost predicate Valid()
      reads this
    {
      q.Length == QUEUE_SIZE && front < QUEUE_SIZE && back < QUEUE_SIZE
    }

    ghost function Count(): nat
      reads this
      requires Valid()
    {
      if back <= front then front - back else front + QUEUE_SIZE - back
    }

    /** The queued entries, oldest first. */
    ghost function Contents(): (s: seq<Entry>)
      reads this, q
      requires Valid()
      ensures |s| == Count()
    {
      if back <= front then q[back..front] else q[back..] + q[..front]
    }

    constructor ()
      ensures Valid() && Contents() == [] && fresh(q)
    {
      q := new Entry[QUEUE_SIZE](_ => Entry(0, 0, 0));
      front, back := 0, 0;
    }

    method Full() returns (r: bool)
      requires Valid()
      ensures r == IsFull(Contents())
    {
      r := (front + 1) % QUEUE_SIZE == back;
    }

    method Push(e: Entry)
      requires Valid() && !IsFull(Contents())
      modifies this, q
      ensures Valid() && Contents() == old(Contents()) + [e]
    {
      q[front] := e;
      front := (front + 1) % QUEUE_SIZE;
    }

    method Pop() returns (e: Entry)
      requires Valid() && Contents() != []
      modifies this`back
      ensures Valid() && e == old(Contents())[0] && Contents() == old(Contents())[1..]
    {
      e := q[back];
      back := (back + 1) % QUEUE_SIZE;
    }

    method Size() returns (n: nat)
      requires Valid()
      ensures n == |Contents()|
    {
      n := (front - back + QUEUE_SIZE) % QUEUE_SIZE;
    }
  }

  /** How many of the oldest entries go: as few as bring the rest within the limit and leave room. */
  function Drained(q: seq<Entry>, limit: nat): (n: nat)
    ensures n <= |q|
  {
    if Over(q, Sum(q), limit) && q != [] then 1 + Drained(q[1..], limit) else 0
  }

  lemma {:induction false} DrainedIsLeast(q: seq<Entry>, limit: nat)
    requires |q| < QUEUE_SIZE
    ensures Drained(q, limit) <= |q| && !Over(q[Drained(q, limit)..], Sum(q[Drained(q, limit)..]), limit)
    ensures forall k :: 0 <= k < Drained(q, limit) ==> Over(q[k..], Sum(q[k..]), limit)
  {
    if Over(q, Sum(q), limit) && q != [] {
      DrainedIsLeast(q[1..], limit);
      var d := Drained(q[1..], limit);
      assert q[1..][d..] == q[1 + d..];
      forall k | 0 <= k < 1 + d ensures Over(q[k..], Sum(q[k..]), limit) {
        if k > 0 { assert q[1..][k - 1..] == q[k..]; } else { assert q[0..] == q; }
      }
    } else {
      assert q[0..] == q;
    }
  }

  /** The number drained is the least n after which the blocks left, with 160 bytes for each, are within the
      limit and fewer than 1023. */
  lemma DrainedIs(q: seq<Entry>, limit: nat, n: nat)
    requires |q| < 1024 && n <= |q|
    ensures n == Drained(q, limit) <==>
            && TotalSize(q[n..]) + 160 * (|q| - n) <= limit && |q| - n < 1023
            && forall k :: 0 <= k < n ==> TotalSize(q[k..]) + 160 * (|q| - k) > limit || |q| - k == 1023
  {
    hide Sum, TotalSize, Drained;
    DrainedIsLeast(q, limit);
    forall k | 0 <= k <= |q| ensures Sum(q[k..]) == TotalSize(q[k..]) + 160 * (|q| - k) {
      SumIs(q[k..]);
    }
    var d := Drained(q, limit);
    assert Over(q[n..], Sum(q[n..]), limit) <==> TotalSize(q[n..]) + 160 * (|q| - n) > limit || |q| - n == 1023;
    assert !Over(q[d..], Sum(q[d..]), limit);
  }

  class DebugAllocator {
    const queue: FreeQueue
    var freeQueueSize: nat

    ghost predicate Valid()
      reads this, queue, queue.q
    {
      queue.Valid() && freeQueueSize == Sum(queue.Contents()) && !IsFull(queue.Contents())
    }

    constructor ()
      ensures Valid() && queue.Contents() == [] && fresh(queue) && fresh(queue.q)
    {
      queue := new FreeQueue();
      freeQueueSize := 0;
    }

    /** ProcessFreeQueue with no other caller in between: the new block joins the queue, and exactly as
        many of the oldest blocks are freed as needed, oldest first. */
    method ProcessFreeQueue(e: Entry, limit: nat) returns (freed: seq<Entry>)
      requires Valid()
      modifies this, queue, queue.q
      ensures Valid()
      ensures var all := old(queue.Contents()) + if e.block == 0 then [] else [e];
              freed == all[..Drained(all, limit)] && queue.Contents() == all[Drained(all, limit)..]
    {
      hide Sum, Drained, FreeQueue.Contents;
      if e.block != 0 {
        SumAppend(queue.Contents(), e);
        freeQueueSize := freeQueueSize + Cost(e);
        queue.Push(e);
      } else {
        assert queue.Contents() + [] == queue.Contents();
      }
      freed := Drain(limit);
    }

    /** The draining loop, in batches. */
    method Drain(limit: nat) returns (freed: seq<Entry>)
      requires queue.Valid() && freeQueueSize == Sum(queue.Contents()) && |queue.Contents()| < QUEUE_SIZE
      modifies this, queue
      ensures Valid()
      ensures var n := Drained(old(queue.Contents()), limit);
              freed == old(queue.Contents())[..n] && queue.Contents() == old(queue.Contents())[n..]
    {
      hide Sum, Drained, FreeQueue.Contents;
      freed := [];
      var entries := [];
      ghost var all, n := queue.Contents(), 0;
      var full := queue.Full();
      assert all[0..] == all;
      while freeQueueSize > limit || full
        invariant queue.Valid() && 0 <= n <= Drained(all, limit) && queue.Contents() == all[n..]
        invariant freeQueueSize == Sum(queue.Contents()) && full == IsFull(queue.Contents())
        invariant |entries| < BATCH && freed + entries == all[..n]
        decreases |all| - n
      {
        SumFirst(all, n, limit, full);
        var x := queue.Pop();
        entries := entries + [x];
        freeQueueSize := freeQueueSize - Cost(x);
        assert freed + entries == all[..n + 1];
        if |entries| == BATCH {
          freed := freed + entries;
          entries := [];
        }
        full := queue.Full();
        n := n + 1;
      }
      DrainDone(all, n, limit);
      freed := freed + entries;
    }
  }

  lemma DrainDone(all: seq<Entry>, n: nat, limit: nat)
    requires |all| < QUEUE_SIZE && n <= Drained(all, limit) && !Over(all[n..], Sum(all[n..]), limit)
    ensures n == Drained(all, limit)
  {
    DrainedIsLeast(all, limit);
  }

  /** While the loop goes on there is an entry to pop, and it is not past the last one to go. */
  lemma SumFirst(all: seq<Entry>, n: nat, limit: nat, full: bool)
    requires |all| < QUEUE_SIZE && n <= Drained(all, limit) && n <= |all| && full == IsFull(all[n..])
    requires (Sum(all[n..]) > limit || full)
    ensures n < |all| && n < Drained(all, limit) && Sum(all[n..]) == Cost(all[n]) + Sum(all[n + 1..])
    ensures all[n..][1..] == all[n + 1..]
  {
    DrainedIsLeast(all, limit);
    assert all[n..] == [] ==> n == |all|;
  }
}
