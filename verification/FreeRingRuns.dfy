/** ProcessFreeQueue called by any number of threads: every interleaving of its steps. */
module FreeRingRuns {
  import opened FreeRing

  datatype Pc = Idle | Draining | FreeingFull | FreeingLast

  /** A caller: where it is, the limit it was given, and the entries it has popped but not freed;
      `done` is history, the push numbers of those it has freed. */
  datatype Thread = Thread(pc: Pc, limit: nat, batch: seq<Entry>, done: seq<nat>)

  datatype Failure = QueueFull | BatchOverflow | EmptyPop | SizeNegative

  /** `pushes` and `freed` are history: how many blocks were pushed, and the push numbers of those
      freed, in order. `popped` counts the entries popped. */
  datatype State = State(queue: seq<Entry>, size: int, lock: int, threads: seq<Thread>,
                         pushes: seq<Entry>, popped: nat, freed: seq<nat>, failures: set<Failure>)

  const FREE: int := -1

  datatype Event =
    | Enter(t: nat, block: nat, size: nat, limit: nat)
    | PopOne(t: nat)
    | Leave(t: nat)
    | FreeOne(t: nat)
    | Relock(t: nat)
    | Finish(t: nat)

  function SetThread(s: State, t: nat, th: Thread): State
    requires t < |s.threads|
  {
    s.(threads := s.threads[t := th])
  }

  function FreedHead(th: Thread): Thread
    requires th.batch != []
  {
    th.(batch := th.batch[1..], done := th.done + [th.batch[0].no])
  }

  function EnterOf(s: State, t: nat, block: nat, size: nat, limit: nat): State
    requires t < |s.threads|
  {
    var s1 := SetThread(s, t, s.threads[t].(pc := Draining, limit := limit, batch := [])).(lock := t);
    var s2 := if IsFull(s.queue) then s1.(failures := s.failures + {QueueFull}) else s1;
    if block == 0 then s2
    else
      var e := Entry(block, size, |s.pushes|);
      s2.(queue := s.queue + [e], size := s.size + Cost(e), pushes := s.pushes + [e])
  }

  function PopOf(s: State, t: nat): State
    requires t < |s.threads|
  {
    var th := s.threads[t];
    if |th.batch| >= BATCH then s.(failures := s.failures + {BatchOverflow})
    else if s.queue == [] then s.(failures := s.failures + {EmptyPop})
    else
      var e := s.queue[0];
      var batch := th.batch + [e];
      var s1 := s.(queue := s.queue[1..], size := s.size - Cost(e), popped := s.popped + 1);
      if |batch| == BATCH then SetThread(s1, t, th.(pc := FreeingFull, batch := batch)).(lock := FREE)
      else SetThread(s1, t, th.(batch := batch))
  }

  function LeaveOf(s: State, t: nat): State
    requires t < |s.threads|
  {
    var s1 := SetThread(s, t, s.threads[t].(pc := FreeingLast)).(lock := FREE);
    if s.size < 0 then s1.(failures := s.failures + {SizeNegative}) else s1
  }

  predicate GoesOn(s: State, limit: nat) {
    s.size > limit || IsFull(s.queue)
  }

  /** One step; an event that does not apply changes nothing. */
  function Apply(s: State, e: Event): State {
    if e.t >= |s.threads| then s
    else
      var t, th := e.t, s.threads[e.t];
      match e
      case Enter(_, block, size, limit) =>
        if th.pc == Idle && s.lock == FREE then EnterOf(s, t, block, size, limit) else s
      case PopOne(_) => if th.pc == Draining && GoesOn(s, th.limit) then PopOf(s, t) else s
      case Leave(_) => if th.pc == Draining && !GoesOn(s, th.limit) then LeaveOf(s, t) else s
      case FreeOne(_) =>
        if (th.pc == FreeingFull || th.pc == FreeingLast) && th.batch != [] then
          SetThread(s, t, FreedHead(th)).(freed := s.freed + [th.batch[0].no])
        else s
      case Relock(_) =>
        if th.pc == FreeingFull && th.batch == [] && s.lock == FREE then
          SetThread(s, t, th.(pc := Draining)).(lock := t)
        else s
      case Finish(_) => if th.pc == FreeingLast && th.batch == [] then SetThread(s, t, th.(pc := Idle)) else s
  }

  function After(s: State, es: seq<Event>): State {
    if es == [] then s else Apply(After(s, es[..|es| - 1]), es[|es| - 1])
  }

  ghost predicate Initial(s: State) {
    && s == State([], 0, FREE, s.threads, [], 0, [], {})
    && forall t :: 0 <= t < |s.threads| ==> s.threads[t] == Thread(Idle, 0, [], [])
  }

  /** Exactly the lock holder is draining. */
  ghost predicate LockInv(s: State) {
    && (s.lock == FREE || 0 <= s.lock < |s.threads|)
    && forall t :: 0 <= t < |s.threads| ==> (s.threads[t].pc == Draining <==> s.lock == t)
  }

  /** The accounted size is that of the queue; the queue has room whenever the lock is free. */
  ghost predicate QueueInv(s: State) {
    && s.size == Sum(s.queue) && |s.queue| < QUEUE_SIZE && (s.lock == FREE ==> !IsFull(s.queue)) && s.failures == {}
    && s.popped + |s.queue| == |s.pushes| && s.queue == s.pushes[s.popped..]
    && forall i :: 0 <= i < |s.pushes| ==> s.pushes[i].no == i
  }

  ghost predicate BatchInv(s: State) {
    forall t :: 0 <= t < |s.threads| ==>
      var th := s.threads[t];
      && |th.batch| <= BATCH && (th.pc == Draining ==> |th.batch| < BATCH) && (th.pc == Idle ==> th.batch == [])
  }

  /** What a caller has freed and then what it holds: in push order. */
  ghost predicate InPushOrder(th: Thread, popped: nat) {
    && (forall i, j :: 0 <= i < j < |th.done| ==> th.done[i] < th.done[j])
    && (forall i, j :: 0 <= i < |th.done| && 0 <= j < |th.batch| ==> th.done[i] < th.batch[j].no)
    && (forall i, j :: 0 <= i < j < |th.batch| ==> th.batch[i].no < th.batch[j].no)
    && (forall i :: 0 <= i < |th.done| ==> th.done[i] < popped)
    && (forall i :: 0 <= i < |th.batch| ==> th.batch[i].no < popped)
  }

  ghost predicate OrderInv(s: State) {
    forall t :: 0 <= t < |s.threads| ==> InPushOrder(s.threads[t], s.popped)
  }

  /** Entries popped and not yet freed, over all threads, as push numbers. */
  ghost function Pending(threads: seq<Thread>): multiset<nat> {
    if threads == [] then multiset{} else Pending(threads[..|threads| - 1]) + Nos(threads[|threads| - 1].batch)
  }

  ghost function Nos(es: seq<Entry>): multiset<nat> {
    if es == [] then multiset{} else multiset{es[0].no} + Nos(es[1..])
  }

  ghost function FirstN(n: nat): multiset<nat> {
    if n == 0 then multiset{} else FirstN(n - 1) + multiset{n - 1}
  }

  /** Each of the first `popped` pushes is freed or waiting in one batch, once; no other is. */
  ghost predicate FreedOnce(s: State) {
    multiset(s.freed) + Pending(s.threads) == FirstN(s.popped)
  }

  ghost predicate Inv(s: State) {
    LockInv(s) && QueueInv(s) && BatchInv(s) && FreedOnce(s) && OrderInv(s)
  }

  lemma {:induction false} PendingUpdate(threads: seq<Thread>, t: nat, th: Thread)
    requires t < |threads|
    ensures Pending(threads[t := th]) + Nos(threads[t].batch) == Pending(threads) + Nos(th.batch)
  {
    hide Nos;
    var n := |threads| - 1;
    if t < n {
      assert threads[t := th][..n] == threads[..n][t := th];
      PendingUpdate(threads[..n], t, th);
      Swap(Pending(threads[..n][t := th]), Nos(threads[t].batch), Pending(threads[..n]), Nos(th.batch),
        Nos(threads[n].batch));
    } else {
      assert threads[t := th][..n] == threads[..n];
    }
  }

  lemma Swap(a: multiset<nat>, c: multiset<nat>, b: multiset<nat>, d: multiset<nat>, l: multiset<nat>)
    requires a + c == b + d
    ensures (a + l) + c == (b + l) + d
  {
    forall x ensures ((a + l) + c)[x] == ((b + l) + d)[x] {
      assert (a + c)[x] == (b + d)[x];
    }
  }

  lemma SameBatch(threads: seq<Thread>, t: nat, th: Thread)
    requires t < |threads| && th.batch == threads[t].batch
    ensures Pending(threads[t := th]) == Pending(threads)
  {
    hide Pending, Nos;
    PendingUpdate(threads, t, th);
    Cancel(Pending(threads[t := th]), Pending(threads), Nos(th.batch), multiset{});
    assert Pending(threads) + multiset{} == Pending(threads);
  }

  lemma {:induction false} NosAppend(es: seq<Entry>, e: Entry)
    ensures Nos(es + [e]) == Nos(es) + multiset{e.no}
  {
    if es != [] {
      assert (es + [e])[1..] == es[1..] + [e];
      NosAppend(es[1..], e);
    } else {
      assert (es + [e])[1..] == [];
    }
  }

  lemma {:induction false} PendingNone(threads: seq<Thread>)
    requires forall t :: 0 <= t < |threads| ==> threads[t].batch == []
    ensures Pending(threads) == multiset{}
  {
    if threads != [] { PendingNone(threads[..|threads| - 1]); }
  }

  lemma InitialInv(s: State)
    requires Initial(s)
    ensures Inv(s)
  {
    PendingNone(s.threads);
  }

  lemma EnterQueue(s: State, t: nat, block: nat, size: nat, limit: nat)
    requires QueueInv(s) && s.lock == FREE && t < |s.threads|
    ensures QueueInv(EnterOf(s, t, block, size, limit))
  {
    var e := Entry(block, size, |s.pushes|);
    SumAppend(s.queue, e);
    assert (s.pushes + [e])[s.popped..] == s.queue + [e];
  }

  lemma EnterInv(s: State, t: nat, block: nat, size: nat, limit: nat)
    requires Inv(s) && t < |s.threads| && s.lock == FREE && s.threads[t].pc == Idle
    ensures Inv(EnterOf(s, t, block, size, limit))
  {
    hide Sum, Pending, QueueInv;
    EnterQueue(s, t, block, size, limit);
    KeepOrder(s, t, EnterOf(s, t, block, size, limit));
    SameBatch(s.threads, t, s.threads[t].(pc := Draining, limit := limit, batch := []));
  }

  /** Draining goes on only while there is something to pop. */
  lemma PopQueue(s: State, t: nat)
    requires QueueInv(s) && t < |s.threads| && |s.threads[t].batch| < BATCH && GoesOn(s, s.threads[t].limit)
    requires s.lock != FREE
    ensures s.queue != [] && s.queue[0].no == s.popped && QueueInv(PopOf(s, t)) && PopOf(s, t).popped == s.popped + 1
  {
    assert s.queue != [];
    assert s.queue[0] == s.pushes[s.popped];
    assert s.queue[1..] == s.pushes[s.popped + 1..];
  }

  lemma PopInv(s: State, t: nat)
    requires Inv(s) && t < |s.threads| && s.threads[t].pc == Draining && GoesOn(s, s.threads[t].limit)
    ensures Inv(PopOf(s, t))
  {
    hide Sum, Pending, QueueInv, Nos;
    PopQueue(s, t);
    var th, s2 := s.threads[t], PopOf(s, t);
    var batch := th.batch + [s.queue[0]];
    NosAppend(th.batch, s.queue[0]);
    PendingUpdate(s.threads, t, s2.threads[t]);
    assert s2.threads == s.threads[t := s2.threads[t]] && s2.threads[t].batch == batch;
    Cancel(Pending(s2.threads), Pending(s.threads), Nos(th.batch), multiset{s.popped});
    PopOrder(s, t, s2);
  }

  lemma PopOrder(s: State, t: nat, s2: State)
    requires OrderInv(s) && t < |s.threads| && s2.popped == s.popped + 1 && |s2.threads| == |s.threads|
    requires s2.threads == s.threads[t := s2.threads[t]] && s2.threads[t].done == s.threads[t].done
    requires exists e :: s2.threads[t].batch == s.threads[t].batch + [e] && e.no == s.popped
    ensures OrderInv(s2)
  {
    hide InPushOrder;
    forall u | 0 <= u < |s2.threads| ensures InPushOrder(s2.threads[u], s2.popped) {
      if u == t { OrderAppend(s.threads[t], s2.threads[t], s.popped); } else { OrderLater(s.threads[u], s.popped); }
    }
  }

  lemma OrderAppend(th: Thread, th2: Thread, popped: nat)
    requires InPushOrder(th, popped) && th2.done == th.done
    requires exists e :: th2.batch == th.batch + [e] && e.no == popped
    ensures InPushOrder(th2, popped + 1)
  {
  }

  lemma OrderMove(th: Thread, pc: Pc, popped: nat)
    requires InPushOrder(th, popped)
    ensures InPushOrder(th.(pc := pc), popped) && (th.batch != [] ==> InPushOrder(FreedHead(th), popped))
  {
  }

  lemma OrderAt(s: State, t: nat)
    requires OrderInv(s) && t < |s.threads|
    ensures InPushOrder(s.threads[t], s.popped)
  {
  }

  lemma OrderLater(th: Thread, popped: nat)
    requires InPushOrder(th, popped)
    ensures InPushOrder(th, popped + 1)
  {
  }

  /** The order is kept when one thread changes and nothing is popped. */
  lemma KeepOrder(s: State, t: nat, s2: State)
    requires OrderInv(s) && t < |s.threads| == |s2.threads| && s2.popped == s.popped
    requires s2.threads == s.threads[t := s2.threads[t]]
    requires InPushOrder(s2.threads[t], s.popped)
    ensures OrderInv(s2)
  {
    hide InPushOrder;
  }

  lemma Cancel(a: multiset<nat>, b: multiset<nat>, c: multiset<nat>, d: multiset<nat>)
    requires a + c == b + (c + d) || a + c == b + (d + c)
    ensures a == b + d
  {
    forall x ensures a[x] == (b + d)[x] {
      assert (a + c)[x] == (b + (c + d))[x];
    }
  }

  lemma FreeInv(s: State, t: nat)
    requires Inv(s) && t < |s.threads| && s.threads[t].batch != []
    requires (s.threads[t].pc == FreeingFull || s.threads[t].pc == FreeingLast)
    ensures Inv(Apply(s, FreeOne(t)))
  {
    hide FreedOnce, QueueInv, EnterOf, PopOf, LeaveOf, InPushOrder, OrderInv;
    var th := s.threads[t];
    var s2 := SetThread(s, t, FreedHead(th)).(freed := s.freed + [th.batch[0].no]);
    assert Apply(s, FreeOne(t)) == s2;
    NotFullWhenFree(s);
    OrderAt(s, t);
    OrderMove(th, th.pc, s.popped);
    KeepOrder(s, t, s2);
    SameQueue(s, s2);
    FreedStep(s, t, s2);
  }

  /** One entry leaves a batch for the freed ones. */
  lemma FreedStep(s: State, t: nat, s2: State)
    requires FreedOnce(s) && t < |s.threads| && s.threads[t].batch != []
    requires s2 == SetThread(s, t, FreedHead(s.threads[t])).(freed := s.freed + [s.threads[t].batch[0].no])
    ensures FreedOnce(s2)
  {
    hide Pending, FirstN;
    var th := s.threads[t];
    PendingUpdate(s.threads, t, FreedHead(th));
    Cancel(Pending(s.threads), Pending(s2.threads), Nos(th.batch[1..]), multiset{th.batch[0].no});
    assert multiset(s2.freed) == multiset(s.freed) + multiset{th.batch[0].no};
  }

  lemma SameQueue(s: State, s2: State)
    requires QueueInv(s) && s2 == s.(threads := s2.threads, freed := s2.freed, lock := s2.lock)
    requires s2.lock == FREE ==> !IsFull(s.queue)
    ensures QueueInv(s2)
  {
  }

  /** A change of place with the batch as it was. */
  lemma MoveInv(s: State, s2: State, t: nat, pc: Pc)
    requires Inv(s) && t < |s.threads|
    requires s2 == SetThread(s, t, s.threads[t].(pc := pc)).(lock := s2.lock)
    requires LockInv(s2) && (s2.lock == FREE ==> !IsFull(s.queue))
    requires |s.threads[t].batch| < BATCH && (pc == Idle ==> s.threads[t].batch == [])
    ensures Inv(s2)
  {
    hide Sum, Pending, QueueInv, Nos, InPushOrder, OrderInv;
    OrderAt(s, t);
    OrderMove(s.threads[t], pc, s.popped);
    KeepOrder(s, t, s2);
    SameQueue(s, s2);
    SameBatch(s.threads, t, s2.threads[t]);
  }

  lemma LeaveInv(s: State, t: nat)
    requires Inv(s) && t < |s.threads| && s.threads[t].pc == Draining && !GoesOn(s, s.threads[t].limit)
    ensures Inv(LeaveOf(s, t))
  {
    hide Sum, Pending;
    MoveInv(s, LeaveOf(s, t), t, FreeingLast);
  }

  lemma StepInv(s: State, e: Event)
    requires Inv(s)
    ensures Inv(Apply(s, e))
  {
    hide Sum, Pending, QueueInv, EnterOf, PopOf, LeaveOf, FreedOnce, OrderInv;
    if e.t < |s.threads| {
      var t, th := e.t, s.threads[e.t];
      match e
      case Enter(_, block, size, limit) => if th.pc == Idle && s.lock == FREE { EnterInv(s, t, block, size, limit); }
      case PopOne(_) => if th.pc == Draining && GoesOn(s, th.limit) { PopInv(s, t); }
      case Leave(_) => if th.pc == Draining && !GoesOn(s, th.limit) { LeaveInv(s, t); }
      case FreeOne(_) => if (th.pc == FreeingFull || th.pc == FreeingLast) && th.batch != [] { FreeInv(s, t); }
      case Relock(_) =>
        if th.pc == FreeingFull && th.batch == [] && s.lock == FREE { MoveInv(s, Apply(s, e), t, Draining); }
      case Finish(_) =>
        if th.pc == FreeingLast && th.batch == [] {
          NotFullWhenFree(s);
          MoveInv(s, Apply(s, e), t, Idle);
        }
    }
  }

  lemma NotFullWhenFree(s: State)
    requires QueueInv(s)
    ensures s.lock == FREE ==> !IsFull(s.queue)
  {
  }

  lemma {:induction false} RunInv(s: State, es: seq<Event>)
    requires Initial(s)
    ensures Inv(After(s, es))
  {
    hide Inv, Apply;
    if es == [] {
      InitialInv(s);
    } else {
      RunInv(s, es[..|es| - 1]);
      StepInv(After(s, es[..|es| - 1]), es[|es| - 1]);
    }
  }

  /** In every reachable state: the size is that of the queue, with room in it whenever the lock is
      free; none of the checks has failed; entries are popped in the order pushed. */
  lemma QueueAccounted(s: State, es: seq<Event>)
    requires Initial(s)
    ensures var s2 := After(s, es);
            && s2.size == TotalSize(s2.queue) + 160 * |s2.queue| && |s2.queue| <= 1023
            && (s2.lock == FREE ==> |s2.queue| < 1023) && s2.failures == {}
            && s2.popped <= |s2.pushes| && s2.queue == s2.pushes[s2.popped..]
  {
    hide After, LockInv, BatchInv, FreedOnce, OrderInv, Sum, TotalSize;
    RunInv(s, es);
    SumIs(After(s, es).queue);
  }

  /** A caller that holds the lock leaves exactly when the queued blocks, with 160 bytes for each, are within
      its limit and fewer than 1023. */
  lemma LeavesWithinLimit(s: State, es: seq<Event>, t: nat)
    requires Initial(s) && t < |After(s, es).threads| && After(s, es).threads[t].pc == Draining
    ensures var s1, s2 := After(s, es), After(s, es + [Leave(t)]);
            var within := TotalSize(s1.queue) + 160 * |s1.queue| <= s1.threads[t].limit && |s1.queue| < 1023;
            && s2.queue == s1.queue && s2.threads[t].batch == s1.threads[t].batch
            && if within then s2.lock == FREE && s2.threads[t].pc == FreeingLast else s2 == s1
  {
    hide After, Sum, TotalSize;
    QueueAccounted(s, es);
    AfterJoin(s, es, [Leave(t)]);
    AfterOne(After(s, es), Leave(t));
  }

  /** Otherwise it takes the oldest block, and drops the lock to free its blocks exactly when it has four. */
  lemma PopsTheOldest(s: State, es: seq<Event>, t: nat)
    requires Initial(s) && t < |After(s, es).threads| && After(s, es).threads[t].pc == Draining
    ensures var s1, s2 := After(s, es), After(s, es + [PopOne(t)]);
            var within := TotalSize(s1.queue) + 160 * |s1.queue| <= s1.threads[t].limit && |s1.queue| < 1023;
            if within then s2 == s1 else
              && s1.queue != [] && s2.queue == s1.queue[1..]
              && s2.threads[t].batch == s1.threads[t].batch + [s1.queue[0]] && |s2.threads[t].batch| <= 4
              && if |s2.threads[t].batch| == 4 then s2.lock == FREE && s2.threads[t].pc == FreeingFull
                 else s2.lock == t && s2.threads[t].pc == Draining
  {
    hide After, Sum, TotalSize, FreedOnce, OrderInv;
    QueueAccounted(s, es);
    RunInv(s, es);
    var s1 := After(s, es);
    if GoesOn(s1, s1.threads[t].limit) { PopQueue(s1, t); }
    AfterJoin(s, es, [PopOne(t)]);
    AfterOne(s1, PopOne(t));
  }

  lemma {:induction false} FirstNOnce(n: nat, k: nat)
    ensures FirstN(n)[k] == if k < n then 1 else 0
  {
    if n > 0 { FirstNOnce(n - 1, k); }
  }

  /** No push is freed twice or before it was popped, and once every batch is empty exactly the popped
      ones have been freed. */
  lemma NoDoubleFree(s: State, es: seq<Event>, k: nat)
    requires Initial(s)
    ensures var s2 := After(s, es);
            && multiset(s2.freed)[k] <= 1 && (k in s2.freed ==> k < s2.popped)
            && ((forall t :: 0 <= t < |s2.threads| ==> s2.threads[t].batch == []) ==>
               (k in s2.freed <==> k < s2.popped))
  {
    hide After, LockInv, BatchInv, QueueInv, OrderInv, Pending, FirstN;
    RunInv(s, es);
    var s2 := After(s, es);
    FirstNOnce(s2.popped, k);
    assert multiset(s2.freed)[k] + Pending(s2.threads)[k] == FirstN(s2.popped)[k];
    if forall t :: 0 <= t < |s2.threads| ==> s2.threads[t].batch == [] {
      PendingNone(s2.threads);
    }
  }

  /** Every caller frees blocks in the order they were pushed. */
  lemma FreesInOrder(s: State, es: seq<Event>, t: nat, i: nat, j: nat)
    requires Initial(s) && t < |After(s, es).threads| && i < j < |After(s, es).threads[t].done|
    ensures After(s, es).threads[t].done[i] < After(s, es).threads[t].done[j]
  {
    hide After, LockInv, BatchInv, QueueInv, FreedOnce;
    RunInv(s, es);
    assert InPushOrder(After(s, es).threads[t], After(s, es).popped);
  }

  // The order of all frees together

  ghost predicate Rising(xs: seq<nat>) {
    forall i, j :: 0 <= i < j < |xs| ==> xs[i] < xs[j]
  }

  /** Two callers hold entries they have not freed. */
  ghost predicate Overlap(s: State) {
    exists t, u :: 0 <= t < u < |s.threads| && s.threads[t].batch != [] && s.threads[u].batch != []
  }

  /** Everything freed so far was pushed before everything still held or queued. */
  ghost predicate FreedFirst(s: State) {
    && Rising(s.freed) && (forall i :: 0 <= i < |s.freed| ==> s.freed[i] < s.popped)
    && forall i, t, j :: 0 <= i < |s.freed| && 0 <= t < |s.threads| && 0 <= j < |s.threads[t].batch| ==>
         s.freed[i] < s.threads[t].batch[j].no
  }

  lemma FreedFirstStep(s: State, e: Event)
    requires Inv(s) && FreedFirst(s) && !Overlap(s)
    ensures FreedFirst(Apply(s, e))
  {
    hide LockInv, BatchInv, FreedOnce, Sum;
    if e.t < |s.threads| {
      var t, th := e.t, s.threads[e.t];
      assert InPushOrder(th, s.popped);
      match e
      case FreeOne(_) => FreedFirstFree(s, t);
      case PopOne(_) => FreedFirstPop(s, t);
      case _ => FreedFirstMove(s, Apply(s, e), t);
    }
  }

  lemma FreedFirstFree(s: State, t: nat)
    requires FreedFirst(s) && !Overlap(s) && t < |s.threads| && InPushOrder(s.threads[t], s.popped)
    ensures FreedFirst(Apply(s, FreeOne(t)))
  {
    var th, s2 := s.threads[t], Apply(s, FreeOne(t));
    if s2 != s {
      forall u, j | 0 <= u < |s2.threads| && 0 <= j < |s2.threads[u].batch|
        ensures th.batch[0].no < s2.threads[u].batch[j].no
      {
      }
    }
  }

  lemma FreedFirstPop(s: State, t: nat)
    requires FreedFirst(s) && t < |s.threads| && QueueInv(s)
    ensures FreedFirst(Apply(s, PopOne(t)))
  {
    var s2 := Apply(s, PopOne(t));
    if s2 != s && s.queue != [] {
      assert s.queue[0] == s.pushes[s.popped];
    }
  }

  lemma FreedFirstMove(s: State, s2: State, t: nat)
    requires FreedFirst(s) && t < |s.threads| == |s2.threads| && s2.freed == s.freed && s2.popped == s.popped
    requires s2.threads == s.threads[t := s2.threads[t]]
    requires (s2.threads[t].batch == [] || s2.threads[t].batch == s.threads[t].batch)
    ensures FreedFirst(s2)
  {
  }

  /** Blocks are freed in the order pushed, over all callers, as long as no two of them hold entries at
      once. */
  lemma {:induction false} FreedInPushOrder(s: State, es: seq<Event>)
    requires Initial(s) && forall n :: 0 <= n < |es| ==> !Overlap(After(s, es[..n]))
    ensures FreedFirst(After(s, es))
  {
    hide Apply, Overlap, FreedFirst, Inv;
    if es == [] {
      StartsInOrder(s);
    } else {
      var front := es[..|es| - 1];
      forall n | 0 <= n < |front| ensures !Overlap(After(s, front[..n])) {
        assert front[..n] == es[..n];
      }
      FreedInPushOrder(s, front);
      RunInv(s, front);
      FreedFirstStep(After(s, front), es[|es| - 1]);
    }
  }

  lemma StartsInOrder(s: State)
    requires Initial(s)
    ensures FreedFirst(s)
  {
  }

  lemma {:induction false} AfterJoin(s: State, es: seq<Event>, more: seq<Event>)
    ensures After(s, es + more) == After(After(s, es), more)
  {
    hide Apply;
    if more == [] {
      assert es + more == es;
    } else {
      var front := more[..|more| - 1];
      assert (es + more)[..|es + more| - 1] == es + front;
      AfterJoin(s, es, front);
    }
  }

  lemma AfterOne(s: State, e: Event)
    ensures After(s, [e]) == Apply(s, e)
  {
    assert [e][..0] == [];
    assert After(s, []) == s;
  }

  ghost predicate OnlyMoves(s: State, s2: State, t: nat) {
    && |s2.threads| == |s.threads| && s2.freed == s.freed && Inv(s2)
    && forall u :: 0 <= u < |s.threads| && u != t ==> s2.threads[u] == s.threads[u]
  }

  ghost predicate ReadyToFree(s: State, t: nat, e: Entry) {
    && t < |s.threads| && s.threads[t].batch != [] && s.threads[t].batch[0] == e
    && (s.threads[t].pc == FreeingFull || s.threads[t].pc == FreeingLast)
  }

  /** A caller with entries can get to the point of freeing them without anyone else moving. */
  lemma {:induction false} ToFreeing(s: State, t: nat) returns (es: seq<Event>)
    requires Inv(s) && t < |s.threads| && s.threads[t].batch != []
    ensures OnlyMoves(s, After(s, es), t) && ReadyToFree(After(s, es), t, s.threads[t].batch[0])
    decreases BATCH - |s.threads[t].batch|
  {
    hide QueueInv, FreedOnce, OrderInv, LockInv, EnterOf;
    if s.threads[t].pc != Draining {
      es := [];
    } else if GoesOn(s, s.threads[t].limit) {
      var s1 := Apply(s, PopOne(t));
      StepInv(s, PopOne(t));
      AfterOne(s, PopOne(t));
      PopMoves(s, t);
      if s1.threads[t].pc == FreeingFull {
        es := [PopOne(t)];
      } else {
        var rest := ToFreeing(s1, t);
        es := [PopOne(t)] + rest;
        AfterJoin(s, [PopOne(t)], rest);
      }
    } else {
      StepInv(s, Leave(t));
      AfterOne(s, Leave(t));
      es := [Leave(t)];
    }
  }

  lemma PopMoves(s: State, t: nat)
    requires Inv(s) && t < |s.threads| && s.threads[t].pc == Draining && GoesOn(s, s.threads[t].limit)
    ensures var s1 := Apply(s, PopOne(t));
            && |s1.threads| == |s.threads| && s1.freed == s.freed && |s1.threads[t].batch| == |s.threads[t].batch| + 1
            && s1.threads[t].batch[..|s.threads[t].batch|] == s.threads[t].batch
            && (s1.threads[t].pc == Draining || s1.threads[t].pc == FreeingFull)
            && forall u :: 0 <= u < |s.threads| && u != t ==> s1.threads[u] == s.threads[u]
  {
    hide FreedOnce, OrderInv, Sum;
    PopQueue(s, t);
  }

  /** An entry is in one batch only. */
  lemma BatchesDiffer(s: State, t: nat, u: nat)
    requires FreedOnce(s) && t < u < |s.threads| && s.threads[t].batch != [] && s.threads[u].batch != []
    ensures s.threads[t].batch[0].no != s.threads[u].batch[0].no
  {
    hide Pending, FirstN;
    var k := s.threads[t].batch[0].no;
    FirstNOnce(s.popped, k);
    assert multiset(s.freed)[k] + Pending(s.threads)[k] == FirstN(s.popped)[k];
    PendingBoth(s.threads, t, u, k);
  }

  lemma {:induction false} PendingOne(threads: seq<Thread>, t: nat, k: nat)
    requires t < |threads|
    ensures Pending(threads)[k] >= Nos(threads[t].batch)[k]
  {
    hide Nos;
    if t < |threads| - 1 { PendingOne(threads[..|threads| - 1], t, k); }
  }

  lemma {:induction false} PendingBoth(threads: seq<Thread>, t: nat, u: nat, k: nat)
    requires t < u < |threads|
    ensures Pending(threads)[k] >= Nos(threads[t].batch)[k] + Nos(threads[u].batch)[k]
  {
    hide Nos;
    if u < |threads| - 1 {
      PendingBoth(threads[..|threads| - 1], t, u, k);
    } else {
      PendingOne(threads[..|threads| - 1], t, k);
    }
  }

  /** Once two callers hold entries, the run can go on so that blocks are freed out of push order. */
  lemma OverlapCanSwap(s: State, es: seq<Event>) returns (more: seq<Event>)
    requires Initial(s) && Overlap(After(s, es))
    ensures !Rising(After(s, es + more).freed)
  {
    hide Apply, Inv;
    RunInv(s, es);
    var s1 := After(s, es);
    var t, u :| 0 <= t < u < |s1.threads| && s1.threads[t].batch != [] && s1.threads[u].batch != [];
    assert FreedOnce(s1) by { InvFreedOnce(s1); }
    BatchesDiffer(s1, t, u);
    if s1.threads[t].batch[0].no < s1.threads[u].batch[0].no {
      more := SwapFrees(s1, u, t);
    } else {
      more := SwapFrees(s1, t, u);
    }
    AfterJoin(s, es, more);
  }

  lemma InvFreedOnce(s: State)
    requires Inv(s)
    ensures FreedOnce(s)
  {
  }

  lemma SwapFrees(s: State, late: nat, early: nat) returns (more: seq<Event>)
    requires Inv(s) && late != early && late < |s.threads| && early < |s.threads|
    requires s.threads[late].batch != [] && s.threads[early].batch != []
    requires s.threads[early].batch[0].no < s.threads[late].batch[0].no
    ensures !Rising(After(s, more).freed)
  {
    hide Apply, Inv;
    var x, y := s.threads[late].batch[0], s.threads[early].batch[0];
    var es1 := ToFreeing(s, late);
    var s1 := After(s, es1);
    var s2 := Apply(s1, FreeOne(late));
    FreeNow(s1, late, x);
    var es2 := ToFreeing(s2, early);
    var s3 := After(s2, es2);
    var s4 := Apply(s3, FreeOne(early));
    FreeNow(s3, early, y);
    AfterOne(s1, FreeOne(late));
    AfterOne(s3, FreeOne(early));
    AfterJoin(s, es1, [FreeOne(late)]);
    AfterJoin(s, es1 + [FreeOne(late)], es2);
    AfterJoin(s, es1 + [FreeOne(late)] + es2, [FreeOne(early)]);
    more := es1 + [FreeOne(late)] + es2 + [FreeOne(early)];
    assert s4.freed == s.freed + [x.no] + [y.no];
    assert s4.freed[|s.freed|] == x.no && s4.freed[|s.freed| + 1] == y.no;
  }

  lemma FreeNow(s: State, t: nat, e: Entry)
    requires Inv(s) && ReadyToFree(s, t, e)
    ensures var s2 := Apply(s, FreeOne(t));
            && Inv(s2) && s2.freed == s.freed + [e.no] && |s2.threads| == |s.threads|
            && forall u :: 0 <= u < |s.threads| && u != t ==> s2.threads[u] == s.threads[u]
  {
    hide Inv;
    StepInv(s, FreeOne(t));
  }

  // One caller alone

  function NosOf(es: seq<Entry>): seq<nat> {
    seq(|es|, i requires 0 <= i < |es| => es[i].no)
  }

  lemma NosJoin(freed: seq<nat>, a: seq<Entry>, b: seq<Entry>)
    ensures freed + NosOf(a) + NosOf(b) == freed + NosOf(a + b)
  {
    assert NosOf(a) + NosOf(b) == NosOf(a + b);
  }

  /** A caller between two drains frees what it holds, in order, and nothing else changes. */
  lemma {:induction false} FreeAll(s: State, t: nat) returns (es: seq<Event>)
    requires Inv(s) && t < |s.threads| && (s.threads[t].pc == FreeingFull || s.threads[t].pc == FreeingLast)
    ensures var s2 := After(s, es);
            && Inv(s2) && s2 == s.(threads := s2.threads, freed := s.freed + NosOf(s.threads[t].batch))
            && |s2.threads| == |s.threads| && s2.threads[t].batch == []
            && s2.threads[t].pc == s.threads[t].pc && s2.threads[t].limit == s.threads[t].limit
    ensures forall e :: e in es ==> e.t == t
    decreases |s.threads[t].batch|
  {
    hide Inv, EnterOf, PopOf, LeaveOf;
    var batch := s.threads[t].batch;
    if batch == [] {
      es := [];
      assert s.freed + NosOf(batch) == s.freed;
    } else {
      StepInv(s, FreeOne(t));
      var s1 := Apply(s, FreeOne(t));
      AfterOne(s, FreeOne(t));
      var rest := FreeAll(s1, t);
      es := [FreeOne(t)] + rest;
      AfterJoin(s, [FreeOne(t)], rest);
      assert s1.freed + NosOf(batch[1..]) == s.freed + NosOf(batch);
    }
  }

  lemma BatchShort(s: State, t: nat)
    requires Inv(s) && t < |s.threads| && s.threads[t].pc == Draining
    ensures |s.threads[t].batch| < BATCH && s.size == Sum(s.queue) && s.lock == t
  {
  }

  lemma PopNext(s: State, t: nat)
    requires Inv(s) && t < |s.threads| && s.threads[t].pc == Draining && GoesOn(s, s.threads[t].limit)
    ensures var s1, th := Apply(s, PopOne(t)), s.threads[t];
            && Inv(s1) && s.queue != [] && s1.queue == s.queue[1..] && s1.freed == s.freed
            && |s1.threads| == |s.threads| && s1.threads[t].batch == th.batch + [s.queue[0]]
            && s1.threads[t].limit == th.limit
            && (s1.threads[t].pc == Draining || (s1.threads[t].pc == FreeingFull && s1.lock == FREE))
  {
    hide FreedOnce, OrderInv, Sum;
    StepInv(s, PopOne(t));
    PopQueue(s, t);
  }

  /** From s, in which the caller has entries and may have some more to take, to s2, in which it is done. */
  ghost predicate DrainedAlone(s: State, s2: State, t: nat)
    requires t < |s.threads|
  {
    var n := Drained(s.queue, s.threads[t].limit);
    && |s2.threads| == |s.threads| && s2.threads[t].pc == Idle && s2.lock == FREE
    && s2.queue == s.queue[n..] && s2.freed == s.freed + NosOf(s.threads[t].batch + s.queue[..n])
  }

  /** One entry less to take, one more held. */
  lemma PopThenDrain(s: State, s1: State, s2: State, t: nat)
    requires t < |s.threads| == |s1.threads| && s.queue != [] && s1.queue == s.queue[1..] && s1.freed == s.freed
    requires s1.threads[t].batch == s.threads[t].batch + [s.queue[0]] && s1.threads[t].limit == s.threads[t].limit
    requires Over(s.queue, Sum(s.queue), s.threads[t].limit) && DrainedAlone(s1, s2, t)
    ensures DrainedAlone(s, s2, t)
  {
    hide Sum;
    var q, n := s.queue, Drained(s1.queue, s.threads[t].limit);
    assert Drained(q, s.threads[t].limit) == 1 + n;
    assert s1.threads[t].batch + q[1..][..n] == s.threads[t].batch + q[..1 + n] && q[1..][n..] == q[1 + n..];
  }

  /** Draining by one caller with no other in between. */
  lemma {:induction false} DrainAlone(s: State, t: nat) returns (es: seq<Event>)
    requires Inv(s) && t < |s.threads| && s.threads[t].pc == Draining
    ensures DrainedAlone(s, After(s, es), t) && forall e :: e in es ==> e.t == t
    decreases |s.queue|, 0
  {
    hide Inv, Apply, Sum, DrainedAlone;
    BatchShort(s, t);
    if GoesOn(s, s.threads[t].limit) {
      PopNext(s, t);
      var s1 := Apply(s, PopOne(t));
      AfterOne(s, PopOne(t));
      var rest;
      if s1.threads[t].pc == Draining { rest := DrainAlone(s1, t); } else { rest := FreeAndDrain(s1, t); }
      es := [PopOne(t)] + rest;
      AfterJoin(s, [PopOne(t)], rest);
      PopThenDrain(s, s1, After(s, es), t);
    } else {
      es := LeaveAlone(s, t);
      StopThere(s, After(s, es), t);
    }
  }

  lemma StopThere(s: State, s2: State, t: nat)
    requires t < |s.threads| == |s2.threads| && s2.threads[t].pc == Idle && s2.lock == FREE
    requires !Over(s.queue, Sum(s.queue), s.threads[t].limit)
    requires s2.queue == s.queue && s2.freed == s.freed + NosOf(s.threads[t].batch)
    ensures DrainedAlone(s, s2, t)
  {
    hide Sum;
    assert s.threads[t].batch + s.queue[..0] == s.threads[t].batch;
  }

  /** With a full batch it first frees that and takes the lock again. */
  lemma {:induction false} FreeAndDrain(s: State, t: nat) returns (es: seq<Event>)
    requires Inv(s) && t < |s.threads| && s.threads[t].pc == FreeingFull && s.lock == FREE
    ensures DrainedAlone(s, After(s, es), t) && forall e :: e in es ==> e.t == t
    decreases |s.queue|, 1
  {
    hide Inv, EnterOf, PopOf, LeaveOf, Sum, DrainedAlone;
    var frees := FreeAll(s, t);
    var s1 := After(s, frees);
    StepInv(s1, Relock(t));
    AfterOne(s1, Relock(t));
    var s2 := Apply(s1, Relock(t));
    var rest := DrainAlone(s2, t);
    AfterJoin(s, frees, [Relock(t)]);
    AfterJoin(s, frees + [Relock(t)], rest);
    es := frees + [Relock(t)] + rest;
    FreeThenDrain(s, s2, After(s, es), t);
  }

  lemma FreeThenDrain(s: State, s1: State, s2: State, t: nat)
    requires t < |s.threads| == |s1.threads| && s1.queue == s.queue && s1.threads[t].limit == s.threads[t].limit
    requires s1.threads[t].batch == [] && s1.freed == s.freed + NosOf(s.threads[t].batch)
    requires DrainedAlone(s1, s2, t)
    ensures DrainedAlone(s, s2, t)
  {
    hide Sum, Drained, NosOf;
    var batch, more := s.threads[t].batch, s.queue[..Drained(s.queue, s.threads[t].limit)];
    assert [] + more == more;
    NosJoin(s.freed, batch, more);
  }

  lemma {:induction false} LeaveAlone(s: State, t: nat) returns (es: seq<Event>)
    requires Inv(s) && t < |s.threads| && s.threads[t].pc == Draining && !GoesOn(s, s.threads[t].limit)
    ensures var s2 := After(s, es);
            && |s2.threads| == |s.threads| && s2.threads[t].pc == Idle && s2.lock == FREE
            && s2.queue == s.queue && s2.freed == s.freed + NosOf(s.threads[t].batch)
    ensures forall e :: e in es ==> e.t == t
  {
    hide Inv, EnterOf, PopOf, Sum;
    StepInv(s, Leave(t));
    AfterOne(s, Leave(t));
    var s1 := Apply(s, Leave(t));
    var frees := FreeAll(s1, t);
    var s2 := After(s1, frees);
    AfterOne(s2, Finish(t));
    AfterJoin(s, [Leave(t)], frees);
    AfterJoin(s, [Leave(t)] + frees, [Finish(t)]);
    es := [Leave(t)] + frees + [Finish(t)];
  }

  /** From any reachable state with the lock free, a caller that nobody interrupts does what the plain
      ProcessFreeQueue does: its block joins the queue, and the least prefix that has to go is freed in order. */
  lemma AloneIsProcess(s: State, es: seq<Event>, t: nat, block: nat, size: nat, limit: nat) returns (more: seq<Event>)
    requires Initial(s) && t < |After(s, es).threads|
    requires After(s, es).threads[t].pc == Idle && After(s, es).lock == FREE
    ensures more != [] && more[0] == Enter(t, block, size, limit) && forall e :: e in more ==> e.t == t
    ensures var s1, s2 := After(s, es), After(s, es + more);
            var all := s1.queue + if block == 0 then [] else [Entry(block, size, |s1.pushes|)];
            var n := Drained(all, limit);
            && |s2.threads| == |s1.threads| && s2.threads[t].pc == Idle && s2.lock == FREE
            && s2.queue == all[n..] && s2.freed == s1.freed + NosOf(all[..n])
  {
    hide Inv, Sum, Drained;
    RunInv(s, es);
    var s1 := After(s, es);
    var enter := Enter(t, block, size, limit);
    StepInv(s1, enter);
    AfterOne(s1, enter);
    var s2 := Apply(s1, enter);
    assert s1.queue + [] == s1.queue;
    var rest := DrainAlone(s2, t);
    assert [] + s2.queue[..Drained(s2.queue, limit)] == s2.queue[..Drained(s2.queue, limit)];
    more := [enter] + rest;
    AfterJoin(s1, [enter], rest);
    AfterJoin(s, es, more);
  }

  /** Two callers with nothing to spare: each pops its own block, and the second frees first. */
  lemma SwappedFrees(s: State)
    requires s == State([], 0, FREE, [Thread(Idle, 0, [], []), Thread(Idle, 0, [], [])], [], 0, [], {})
    ensures var es := [Enter(0, 8, 16, 0)] + [PopOne(0)] + [Leave(0)] + [Enter(1, 64, 16, 0)] + [PopOne(1)] + [Leave(1)]
                      + [FreeOne(1)] + [FreeOne(0)];
            Initial(s) && After(s, es).freed == [1, 0]
  {
    hide After;
    var a, b := Entry(8, 16, 0), Entry(64, 16, 1);
    var es1 := [Enter(0, 8, 16, 0)];
    AfterOne(s, Enter(0, 8, 16, 0));
    var s1 := Apply(s, Enter(0, 8, 16, 0));
    assert s1 == State([a], 176, 0, [Thread(Draining, 0, [], []), Thread(Idle, 0, [], [])], [a], 0, [], {});
    AfterJoin(s, es1, [PopOne(0)]);
    AfterOne(s1, PopOne(0));
    var s2 := Apply(s1, PopOne(0));
    assert s2 == State([], 0, 0, [Thread(Draining, 0, [a], []), Thread(Idle, 0, [], [])], [a], 1, [], {});
    AfterJoin(s, es1 + [PopOne(0)], [Leave(0)]);
    AfterOne(s2, Leave(0));
    var s3 := Apply(s2, Leave(0));
    assert s3 == State([], 0, FREE, [Thread(FreeingLast, 0, [a], []), Thread(Idle, 0, [], [])], [a], 1, [], {});
    SecondCaller(s3, a, b);
    var rest := [Enter(1, 64, 16, 0)] + [PopOne(1)] + [Leave(1)] + [FreeOne(1)] + [FreeOne(0)];
    AfterJoin(s, es1 + [PopOne(0)] + [Leave(0)], rest);
    assert es1 + [PopOne(0)] + [Leave(0)] + rest ==
           [Enter(0, 8, 16, 0)] + [PopOne(0)] + [Leave(0)] + [Enter(1, 64, 16, 0)] + [PopOne(1)] + [Leave(1)]
           + [FreeOne(1)] + [FreeOne(0)];
  }

  lemma SecondCaller(s3: State, a: Entry, b: Entry)
    requires a.no == 0 && b == Entry(64, 16, 1)
    requires s3 == State([], 0, FREE, [Thread(FreeingLast, 0, [a], []), Thread(Idle, 0, [], [])], [a], 1, [], {})
    ensures After(s3, [Enter(1, 64, 16, 0)] + [PopOne(1)] + [Leave(1)] + [FreeOne(1)] + [FreeOne(0)]).freed == [1, 0]
  {
    hide After, Apply;
    var t0 := Thread(FreeingLast, 0, [a], []);
    var e1, e2, e3, e4 := [Enter(1, 64, 16, 0)], [PopOne(1)], [Leave(1)], [FreeOne(1)];
    var s5 := State([], 0, 1, [t0, Thread(Draining, 0, [b], [])], [a, b], 2, [], {});
    SecondPops(s3, s5, a, b);
    SecondFrees(s5, a, b);
    AfterJoin(s3, e1, e2);
    AfterOne(s3, Enter(1, 64, 16, 0));
    AfterOne(Apply(s3, Enter(1, 64, 16, 0)), PopOne(1));
    AfterJoin(s3, e1 + e2, e3 + e4 + [FreeOne(0)]);
    assert e1 + e2 + (e3 + e4 + [FreeOne(0)]) == e1 + e2 + e3 + e4 + [FreeOne(0)];
  }

  lemma SecondPops(s3: State, s5: State, a: Entry, b: Entry)
    requires b == Entry(64, 16, 1)
    requires s3 == State([], 0, FREE, [Thread(FreeingLast, 0, [a], []), Thread(Idle, 0, [], [])], [a], 1, [], {})
    requires s5 == State([], 0, 1, [Thread(FreeingLast, 0, [a], []), Thread(Draining, 0, [b], [])], [a, b], 2, [], {})
    ensures Apply(Apply(s3, Enter(1, 64, 16, 0)), PopOne(1)) == s5
  {
    var s4 := Apply(s3, Enter(1, 64, 16, 0));
    assert s4 == State([b], 176, 1, [Thread(FreeingLast, 0, [a], []), Thread(Draining, 0, [], [])], [a, b], 1, [], {});
  }

  lemma SecondFrees(s5: State, a: Entry, b: Entry)
    requires a.no == 0 && b.no == 1
    requires s5 == State([], 0, 1, [Thread(FreeingLast, 0, [a], []), Thread(Draining, 0, [b], [])], [a, b], 2, [], {})
    ensures After(s5, [Leave(1)] + [FreeOne(1)] + [FreeOne(0)]).freed == [1, 0]
  {
    hide After;
    var s6 := Apply(s5, Leave(1));
    var s7 := Apply(s6, FreeOne(1));
    assert s7.freed == [1] && s7.threads[0] == Thread(FreeingLast, 0, [a], []);
    AfterOne(s5, Leave(1));
    AfterOne(s6, FreeOne(1));
    AfterOne(s7, FreeOne(0));
    AfterJoin(s5, [Leave(1)], [FreeOne(1)]);
    AfterJoin(s5, [Leave(1)] + [FreeOne(1)], [FreeOne(0)]);
  }
}
