/** All targets of a logger together: the shared callback queue, the keep-alive counter and its timer,
    over every run of writes, rotations, flushes, completions, callbacks and buffer returns. */
module LogRuns {
  import opened LogBanks
  import opened LogBankSteps

  const CALLBACK_QUEUE: nat := 10

  /** A queued callback: a bank, or an overflow write of which only the target matters here. */
  datatype Item = BankItem(target: nat, bank: Bank) | OverflowItem(target: nat)

  /** Target 0 is the default target; the others are registered. */
  datatype State = State(targets: seq<Target>, callbacks: seq<Item>, need: nat, timer: bool, failures: set<Failure>)

  datatype Event =
    | Write(i: nat, m: Message, room: bool)
    | Rotate(i: nat)
    | Flush(i: nat, nocallback: bool)
    | Complete(i: nat, k: nat)
    | Deliver
    | Return(i: nat, k: nat)
    | SetCallback(i: nat)
    | SetDisabled(i: nat, disabled: bool)
    | Overflow(i: nat, tracked: bool)
    | OverflowDone(i: nat)

  /** refGreaseInGrease */
  function RefOf(s: State): (s2: State) {
    s.(need := s.need + 1, timer := s.need == 0 || s.timer)
  }

  /** unrefGreaseInGrease, with its assertion */
  function UnrefOf(s: State): (s2: State) {
    if s.need == 0 then s.(failures := s.failures + {UnrefUnderflow})
    else s.(need := s.need - 1, timer := if s.need == 1 then false else s.timer)
  }

  function With(s: State, i: nat, t: Target, failures: set<Failure>): State
    requires i < |s.targets|
  {
    s.(targets := s.targets[i := t], failures := s.failures + failures)
  }

  function CompleteIn(s: State, i: nat, k: nat): State
    requires i < |s.targets| && k < |s.targets[i].inFlight|
  {
    var t := s.targets[i];
    var room := |s.callbacks| < CALLBACK_QUEUE;
    var e := CompleteOf(t, k, room);
    var s2 := With(if t.inFlight[k].bank.IsEmpty() then s else UnrefOf(s), i, e.t, e.failures);
    if WantsCallback(t, t.inFlight[k]) && room then
      s2.(callbacks := s.callbacks + [BankItem(i, t.inFlight[k].bank)]) else s2
  }

  function DeliverIn(s: State): State
    requires s.callbacks != []
  {
    var x, s2 := s.callbacks[0], s.(callbacks := s.callbacks[1..]);
    if x.BankItem? && x.target < |s.targets| then
      var t := s.targets[x.target];
      With(s2, x.target, t.(user := t.user + [x.bank]), {})
    else s2
  }

  function OverflowDoneIn(s: State, i: nat): State
    requires i < |s.targets| && s.targets[i].overflow > 0
  {
    var t := s.targets[i];
    var s2 := With(UnrefOf(s), i, t.(overflow := t.overflow - 1), {});
    if t.callback && |s.callbacks| < CALLBACK_QUEUE then s2.(callbacks := s.callbacks + [OverflowItem(i)]) else s2
  }

  /** One step; an event that does not apply changes nothing. */
  function Apply(s: State, e: Event): State {
    match e
    case Deliver => if s.callbacks != [] then DeliverIn(s) else s
    case _ => if e.i < |s.targets| then ApplyAt(s, e, e.i) else s
  }

  function ApplyAt(s: State, e: Event, i: nat): State
    requires i < |s.targets|
  {
    var t := s.targets[i];
    match e
    case Write(_, m, room) =>
      var x := WriteOf(t, m, room);
      With(if x.ref then RefOf(s) else s, i, x.t, x.failures)
    case Rotate(_) => With(s, i, RotateOf(t).t, RotateOf(t).failures)
    case Flush(_, nocallback) => if t.out != [] then With(s, i, FlushOf(t, nocallback), {}) else s
    case Complete(_, k) => if k < |t.inFlight| then CompleteIn(s, i, k) else s
    case Return(_, k) =>
      if k < |t.user| then With(s, i, ReturnOf(t, k, i != 0).t, ReturnOf(t, k, i != 0).failures) else s
    case SetCallback(_) => With(s, i, t.(callback := true), {})
    case SetDisabled(_, d) => With(s, i, t.(disabled := d), {})
    case Overflow(_, tracked) =>
      if t.disabled then s
      else if tracked then With(RefOf(s), i, t.(overflow := t.overflow + 1), {})
      else if t.callback && |s.callbacks| < CALLBACK_QUEUE then RefOf(s).(callbacks := s.callbacks + [OverflowItem(i)])
      else RefOf(s)
    case OverflowDone(_) => if t.overflow > 0 then OverflowDoneIn(s, i) else s
    case Deliver => s
  }

  function After(s: State, es: seq<Event>): State {
    if es == [] then s else Apply(After(s, es[..|es| - 1]), es[|es| - 1])
  }

  ghost predicate Initial(s: State) {
    && (forall i :: 0 <= i < |s.targets| ==> IsNew(s.targets[i]))
    && s.callbacks == [] && s.need == 0 && !s.timer && s.failures == {}
  }

  ghost predicate IsNew(t: Target) {
    t.numBanks > 0 && t == NewTarget(t.numBanks, t.bankSize, t.delim)
  }

  /** The banks waiting in the callback queue for target i. */
  ghost function Queued(cs: seq<Item>, i: nat): seq<Bank> {
    if cs == [] then []
    else Queued(cs[..|cs| - 1], i) +
         (if cs[|cs| - 1].BankItem? && cs[|cs| - 1].target == i then [cs[|cs| - 1].bank] else [])
  }

  lemma {:induction false} QueuedFirst(cs: seq<Item>, i: nat)
    requires cs != []
    ensures Queued(cs, i) == (if cs[0].BankItem? && cs[0].target == i then [cs[0].bank] else []) + Queued(cs[1..], i)
  {
    var front := cs[..|cs| - 1];
    if front != [] {
      QueuedFirst(front, i);
      assert front[1..] == cs[1..][..|cs[1..]| - 1];
    }
  }

  lemma QueuedLast(cs: seq<Item>, x: Item, i: nat)
    ensures Queued(cs + [x], i) == Queued(cs, i) + if x.BankItem? && x.target == i then [x.bank] else []
  {
    assert (cs + [x])[..|cs|] == cs;
  }

  ghost function SumWeight(ts: seq<Target>): nat {
    if ts == [] then 0 else SumWeight(ts[..|ts| - 1]) + Weight(ts[|ts| - 1])
  }

  lemma {:induction false} SumUpdate(ts: seq<Target>, i: nat, t: Target)
    requires i < |ts|
    ensures SumWeight(ts[i := t]) == SumWeight(ts) - Weight(ts[i]) + Weight(t)
  {
    hide Weight;
    var ts2, n := ts[i := t], |ts| - 1;
    if i < n {
      assert ts2[..n] == ts[..n][i := t];
      SumUpdate(ts[..n], i, t);
    } else {
      assert ts2[..n] == ts[..n];
    }
  }

  lemma {:induction false} SumAtLeast(ts: seq<Target>, i: nat)
    requires i < |ts|
    ensures SumWeight(ts) >= Weight(ts[i])
  {
    hide Weight;
    if i < |ts| - 1 { SumAtLeast(ts[..|ts| - 1], i); }
  }

  ghost predicate TargetsInv(s: State) {
    forall i :: 0 <= i < |s.targets| ==> Good(s.targets[i], Queued(s.callbacks, i), i)
  }

  /** Banks are with the user or waiting for a callback only when a callback is set, and only the
      default target fails to take a bank back. */
  ghost predicate CallbackUse(t: Target, queued: seq<Bank>, i: nat) {
    && (queued != [] || t.user != [] || t.dropped != [] ==> t.callback)
    && (t.dropped != [] ==> i == 0)
  }

  ghost predicate Good(t: Target, queued: seq<Bank>, i: nat) {
    TargetInv(t, queued) && CallbackUse(t, queued, i)
  }

  ghost predicate KeepAlive(s: State) {
    s.need >= SumWeight(s.targets) && (s.timer <==> s.need > 0)
  }

  ghost predicate Inv(s: State) {
    && TargetsInv(s) && KeepAlive(s) && s.failures == {}
    && |s.callbacks| <= CALLBACK_QUEUE && forall j :: 0 <= j < |s.callbacks| ==> s.callbacks[j].target < |s.targets|
  }

  lemma InitialInv(s: State)
    requires Initial(s)
    ensures Inv(s)
  {
    forall i | 0 <= i < |s.targets| ensures Good(s.targets[i], Queued(s.callbacks, i), i) && Weight(s.targets[i]) == 0 {
      assert IsNew(s.targets[i]);
      NewTargetInv(s.targets[i].numBanks, s.targets[i].bankSize, s.targets[i].delim);
    }
    SumZero(s.targets);
  }

  lemma {:induction false} SumZero(ts: seq<Target>)
    requires forall i :: 0 <= i < |ts| ==> Weight(ts[i]) == 0
    ensures SumWeight(ts) == 0
  {
    hide Weight;
    if ts != [] { SumZero(ts[..|ts| - 1]); }
  }

  /** A step that changes target i, takes refs references more, and leaves the callback queue alone. */
  lemma StepAt(s: State, s2: State, i: nat, t: Target)
    requires Inv(s) && i < |s.targets| && s2 == s.(targets := s.targets[i := t], need := s2.need, timer := s2.timer)
    requires Good(t, Queued(s.callbacks, i), i) && s2.need + Weight(s.targets[i]) >= s.need + Weight(t)
    requires s2.timer <==> s2.need > 0
    ensures Inv(s2)
  {
    hide Good, Weight, Queued;
    SumUpdate(s.targets, i, t);
  }

  lemma WriteStep(s: State, i: nat, m: Message, room: bool)
    requires Inv(s) && i < |s.targets|
    ensures Inv(ApplyAt(s, Write(i, m, room), i))
  {
    hide TargetInv, Weight, Queued, WriteOf, SumWeight;
    var t, x := s.targets[i], WriteOf(s.targets[i], m, room);
    assert Good(t, Queued(s.callbacks, i), i);
    WriteKeeps(t, Queued(s.callbacks, i), m, room);
    WriteSame(t, m, room);
    StepAt(s, ApplyAt(s, Write(i, m, room), i), i, x.t);
  }

  lemma WriteSame(t: Target, m: Message, room: bool)
    ensures var t2 := WriteOf(t, m, room).t; t2.callback == t.callback && t2.user == t.user
    ensures var t2 := RotateOf(t).t; t2.callback == t.callback && t2.user == t.user
  {
    hide Bank.CopyLine, Bank.Remain;
  }

  lemma RotateStep(s: State, i: nat)
    requires Inv(s) && i < |s.targets|
    ensures Inv(ApplyAt(s, Rotate(i), i))
  {
    hide TargetInv, Weight, Queued, RotateOf, SumWeight;
    var t, x := s.targets[i], RotateOf(s.targets[i]);
    assert Good(t, Queued(s.callbacks, i), i);
    RotateKeeps(t, Queued(s.callbacks, i));
    WriteSame(t, Message("", "", ""), false);
    StepAt(s, ApplyAt(s, Rotate(i), i), i, x.t);
  }

  lemma FlushStep(s: State, i: nat, nocallback: bool)
    requires Inv(s) && i < |s.targets| && s.targets[i].out != []
    ensures Inv(ApplyAt(s, Flush(i, nocallback), i))
  {
    hide TargetInv, Weight, Queued, SumWeight;
    var t := s.targets[i];
    assert Good(t, Queued(s.callbacks, i), i);
    FlushKeeps(t, Queued(s.callbacks, i), nocallback);
    StepAt(s, ApplyAt(s, Flush(i, nocallback), i), i, FlushOf(t, nocallback));
  }

  lemma ReturnStep(s: State, i: nat, k: nat)
    requires Inv(s) && i < |s.targets| && k < |s.targets[i].user|
    ensures Inv(ApplyAt(s, Return(i, k), i))
  {
    hide TargetInv, Weight, Queued, SumWeight;
    var t := s.targets[i];
    assert Good(t, Queued(s.callbacks, i), i);
    ReturnKeeps(t, Queued(s.callbacks, i), k, i != 0);
    StepAt(s, ApplyAt(s, Return(i, k), i), i, ReturnOf(t, k, i != 0).t);
  }

  /** Settings and the overflow count do not matter to the banks. */
  lemma OtherFields(t: Target, t2: Target, queued: seq<Bank>, i: nat)
    requires Good(t, queued, i) && t2 == t.(callback := t2.callback, disabled := t2.disabled, overflow := t2.overflow)
    requires t.callback ==> t2.callback
    ensures Good(t2, queued, i) && Weight(t2) - t2.overflow == Weight(t) - t.overflow
  {
    hide BankLines, RenderAll, Ids;
    assert Held(t2, queued) == Held(t, queued) && Kept(t2) == Kept(t);
  }

  lemma SettingStep(s: State, i: nat, t2: Target)
    requires Inv(s) && i < |s.targets|
    requires t2 == s.targets[i].(callback := t2.callback, disabled := t2.disabled)
    requires (s.targets[i].callback ==> t2.callback)
    ensures Inv(With(s, i, t2, {}))
  {
    hide Good, Weight, Queued, SumWeight;
    OtherFields(s.targets[i], t2, Queued(s.callbacks, i), i);
    StepAt(s, With(s, i, t2, {}), i, t2);
  }

  lemma OverflowStep(s: State, i: nat, tracked: bool)
    requires Inv(s) && i < |s.targets|
    ensures Inv(ApplyAt(s, Overflow(i, tracked), i))
  {
    hide Good, Weight, Queued, SumWeight;
    var t := s.targets[i];
    if !t.disabled {
      var t2 := if tracked then t.(overflow := t.overflow + 1) else t;
      assert s.targets[i := t] == s.targets;
      OtherFields(t, t2, Queued(s.callbacks, i), i);
      var s2 := With(RefOf(s), i, t2, {});
      StepAt(s, s2, i, t2);
      if !tracked && t.callback && |s.callbacks| < CALLBACK_QUEUE { PushItem(s2, OverflowItem(i)); }
    }
  }

  /** Data of target i means the counter is positive. */
  lemma NeedPositive(s: State, i: nat)
    requires Inv(s) && i < |s.targets| && Weight(s.targets[i]) > 0
    ensures s.need > 0
  {
    hide Weight;
    SumAtLeast(s.targets, i);
  }

  /** Adding an item to the callback queue. */
  lemma PushItem(s: State, x: Item)
    requires Inv(s) && |s.callbacks| < CALLBACK_QUEUE && x.target < |s.targets| && x.OverflowItem?
    ensures Inv(s.(callbacks := s.callbacks + [x]))
  {
    hide Good, Queued, SumWeight;
    forall i: nat ensures Queued(s.callbacks + [x], i) == Queued(s.callbacks, i) { QueuedLast(s.callbacks, x, i); }
  }

  lemma OverflowDoneStep(s: State, i: nat)
    requires Inv(s) && i < |s.targets| && s.targets[i].overflow > 0
    ensures Inv(OverflowDoneIn(s, i))
  {
    hide Good, Queued, SumWeight;
    var t := s.targets[i];
    var t2 := t.(overflow := t.overflow - 1);
    OtherFields(t, t2, Queued(s.callbacks, i), i);
    NeedPositive(s, i);
    var s2 := With(UnrefOf(s), i, t2, {});
    StepAt(s, s2, i, t2);
    if t.callback && |s.callbacks| < CALLBACK_QUEUE { PushItem(s2, OverflowItem(i)); }
  }

  lemma CompleteStep(s: State, i: nat, k: nat)
    requires Inv(s) && i < |s.targets| && k < |s.targets[i].inFlight|
    ensures Inv(CompleteIn(s, i, k))
  {
    hide TargetInv, Weight, Queued, SumWeight, CompleteOf;
    var t, room, q := s.targets[i], |s.callbacks| < CALLBACK_QUEUE, Queued(s.callbacks, i);
    var e := CompleteOf(t, k, room);
    assert Good(t, q, i);
    CompleteKeeps(t, q, k, room);
    CompleteSame(t, k, room);
    NeedPositive(s, i);
    if WantsCallback(t, t.inFlight[k]) && room {
      LandStep(s, i, e.t, t.inFlight[k].bank);
    } else {
      StepAt(s, CompleteIn(s, i, k), i, e.t);
    }
  }

  lemma CompleteSame(t: Target, k: nat, room: bool)
    requires k < |t.inFlight|
    ensures var t2 := CompleteOf(t, k, room).t; t2.callback == t.callback && t2.user == t.user
  {
  }

  /** A completed bank waits for its callback. */
  lemma LandStep(s: State, i: nat, t: Target, b: Bank)
    requires Inv(s) && i < |s.targets| && |s.callbacks| < CALLBACK_QUEUE && s.need > 0
    requires Weight(t) == Weight(s.targets[i]) - 1
    requires Good(t, Queued(s.callbacks, i) + [b], i)
    ensures Inv(UnrefOf(s).(targets := s.targets[i := t], callbacks := s.callbacks + [BankItem(i, b)]))
  {
    hide Good, Queued, SumWeight, Weight;
    forall j: nat
      ensures Queued(s.callbacks + [BankItem(i, b)], j) == Queued(s.callbacks, j) + (if i == j then [b] else [])
    {
      QueuedLast(s.callbacks, BankItem(i, b), j);
    }
    forall j: nat | j != i ensures Queued(s.callbacks, j) + [] == Queued(s.callbacks, j) {}
    SumUpdate(s.targets, i, t);
  }

  lemma DeliverStep(s: State)
    requires Inv(s) && s.callbacks != []
    ensures Inv(DeliverIn(s))
  {
    hide TargetInv, Queued, SumWeight, Weight, UnrefOf;
    var x, cs := s.callbacks[0], s.callbacks[1..];
    forall j: nat
      ensures Queued(s.callbacks, j) == (if x.BankItem? && x.target == j then [x.bank] else []) + Queued(cs, j)
    {
      QueuedFirst(s.callbacks, j);
    }
    forall j: nat | !x.BankItem? || x.target != j ensures [] + Queued(cs, j) == Queued(cs, j) {}
    if x.BankItem? {
      var i := x.target;
      var t, q := s.targets[i], Queued(s.callbacks, i);
      assert Good(t, q, i);
      assert q == [x.bank] + Queued(cs, i) && q[1..] == Queued(cs, i);
      DeliverKeeps(t, q);
      assert Weight(t.(user := t.user + [x.bank])) == Weight(t) by { UserWeightless(t, x.bank); }
      SumUpdate(s.targets, i, t.(user := t.user + [x.bank]));
    }
  }

  lemma UserWeightless(t: Target, b: Bank)
    ensures Weight(t.(user := t.user + [b])) == Weight(t)
  {
  }

  lemma StepInv(s: State, e: Event)
    requires Inv(s)
    ensures Inv(Apply(s, e))
  {
    hide Inv, RotateOf, WriteOf, FlushOf, CompleteIn, DeliverIn, OverflowDoneIn;
    if e.Deliver? {
      if s.callbacks != [] { DeliverStep(s); }
    } else if e.i < |s.targets| {
      var i, t := e.i, s.targets[e.i];
      match e
      case Write(_, m, room) => WriteStep(s, i, m, room);
      case Rotate(_) => RotateStep(s, i);
      case Flush(_, nocallback) => if t.out != [] { FlushStep(s, i, nocallback); }
      case Complete(_, k) => if k < |t.inFlight| { CompleteStep(s, i, k); }
      case Return(_, k) => if k < |t.user| { ReturnStep(s, i, k); }
      case SetCallback(_) => SettingStep(s, i, t.(callback := true));
      case SetDisabled(_, d) => SettingStep(s, i, t.(disabled := d));
      case Overflow(_, tracked) => OverflowStep(s, i, tracked);
      case OverflowDone(_) => if t.overflow > 0 { OverflowDoneStep(s, i); }
    }
  }

  lemma {:induction false} RunInv(s: State, es: seq<Event>)
    requires Initial(s)
    ensures Inv(After(s, es))
  {
    hide Inv, Apply;
    if es == [] {
      InitialInv(s);
    } else {
      RunInv(s, es[..|es| - 1]);
      StepInv(After(s, es[..|es| - 1]), es[|es| - 1]);
    }
  }

  // What holds in every reachable state

  /** How often bank b of target i is found, place by place. */
  ghost function Occurrences(t: Target, queued: seq<Bank>, b: nat): nat {
    Ids(t.avail)[b] + multiset{t.current.id}[b] + Ids(t.out)[b] + Ids(BanksInFlight(t.inFlight))[b] + Ids(queued)[b]
    + Ids(t.user)[b] + Ids(t.dropped)[b]
  }

  lemma AllIdsOnce(n: nat, b: nat)
    ensures AllIds(n)[b] == if b < n then 1 else 0
  {
    if n > 0 {
      AllIdsOnce(n - 1, b);
      var s1, s2 := seq(n, i requires 0 <= i => i), seq(n - 1, i requires 0 <= i => i);
      assert s1 == s2 + [n - 1];
    }
  }

  /** Every bank is in exactly one place; only the default target can have lost one, and only if it
      has a callback. */
  lemma BanksConserved(s: State, es: seq<Event>, i: nat, b: nat)
    requires Initial(s) && i < |After(s, es).targets|
    ensures var s2 := After(s, es);
            var t := s2.targets[i];
            && Occurrences(t, Queued(s2.callbacks, i), b) == (if b < t.numBanks then 1 else 0)
            && (t.dropped != [] ==> i == 0 && t.callback)
  {
    hide After, Queued, Held, Ids, AllIds, InOrder, WholeLines, Filled, SumWeight;
    RunInv(s, es);
    var s2 := After(s, es);
    var t := s2.targets[i];
    assert Good(t, Queued(s2.callbacks, i), i);
    HeldIds(t, Queued(s2.callbacks, i));
    AllIdsOnce(t.numBanks, b);
  }

  /** The branches for a full write-out queue, for a bank that cannot be put back or does not fit the
      available ones, and the assertion in unref are never reached. */
  lemma FailuresUnreachable(s: State, es: seq<Event>)
    requires Initial(s)
    ensures After(s, es).failures == {}
  {
    hide TargetsInv, KeepAlive, After;
    RunInv(s, es);
  }

  /** Nothing but whole messages, in the order written, goes to flush, waits for it or is in the
      current bank; and every bank with data keeps within its space. */
  lemma OnlyWholeMessages(s: State, es: seq<Event>, i: nat)
    requires Initial(s) && i < |After(s, es).targets|
    ensures var t := After(s, es).targets[i];
            && Increasing(Kept(t)) && Below(Kept(t), |t.written|)
            && KeptText(t) == RenderAll(Kept(t), t.written, t.delim)
            && (PrefixesFit(t.written, t.delim) ==>
                  |t.current.text| <= t.bankSize && forall k :: 0 <= k < |t.out| ==> |t.out[k].text| <= t.bankSize)
            && ((forall k :: 0 <= k < |t.written| ==> EndsLine(t.written[k], t.delim)) ==>
               KeptText(t) == Lines(Kept(t), t.written, t.delim))
  {
    hide After, Conserved, Filled, SumWeight, Queued, RenderAll, MsgsOf, TextOf, Lines;
    RunInv(s, es);
    var t := After(s, es).targets[i];
    assert Good(t, Queued(After(s, es).callbacks, i), i);
    assert forall k :: 0 <= k < |t.out| ==> BankLines(t.out[k], t.written, t.delim, t.bankSize);
    TextsRendered(t.out, t.written, t.delim, t.bankSize);
    RenderAllAppend(t.flushed, MsgsOf(t.out), t.written, t.delim);
    RenderAllAppend(t.flushed + MsgsOf(t.out), t.current.msgs, t.written, t.delim);
    if forall k :: 0 <= k < |t.written| ==> EndsLine(t.written[k], t.delim) {
      RenderAllIsLines(Kept(t), t.written, t.delim);
    }
  }

  lemma {:induction false} TextsRendered(bs: seq<Bank>, written: seq<Message>, delim: string, bankSize: nat)
    requires AllLines(bs, written, delim, bankSize)
    ensures TextOf(bs) == RenderAll(MsgsOf(bs), written, delim)
  {
    hide RenderAll;
    if bs != [] {
      var front, b := bs[..|bs| - 1], bs[|bs| - 1];
      TextsRendered(front, written, delim, bankSize);
      assert BankLines(b, written, delim, bankSize);
      RenderAllAppend(MsgsOf(front), b.msgs, written, delim);
    } else {
      NothingRendered(written, delim);
    }
  }

  lemma NothingRendered(written: seq<Message>, delim: string)
    ensures RenderAll([], written, delim) == ""
  {
  }

  /** The event offers a message to the banks of target i. */
  ghost predicate IsOffered(t: Target, e: Event, i: nat)
    ensures IsOffered(t, e, i) ==> e.Write?
  {
    e.Write? && e.i == i && !t.disabled && !Huge(t, e.m)
  }

  /** The messages a run offers to the banks of target i. */
  ghost function Offered(s: State, es: seq<Event>, i: nat): seq<Message> {
    if es == [] then []
    else
      var s2, e := After(s, es[..|es| - 1]), es[|es| - 1];
      Offered(s, es[..|es| - 1], i) +
      if i < |s2.targets| && IsOffered(s2.targets[i], e, i) then [e.m] else []
  }

  lemma {:induction false} WrittenIsOffered(s: State, es: seq<Event>, i: nat)
    requires Initial(s) && i < |s.targets|
    ensures i < |After(s, es).targets| && After(s, es).targets[i].written == Offered(s, es, i)
  {
    hide Apply;
    if es == [] {
      assert IsNew(s.targets[i]);
    } else {
      WrittenIsOffered(s, es[..|es| - 1], i);
      WrittenStep(After(s, es[..|es| - 1]), es[|es| - 1], i);
    }
  }

  lemma WrittenStep(s: State, e: Event, i: nat)
    requires i < |s.targets|
    ensures i < |Apply(s, e).targets|
    ensures Apply(s, e).targets[i].written == s.targets[i].written +
                                              if IsOffered(s.targets[i], e, i) then [e.m] else []
  {
    hide RotateOf, CompleteOf, WriteOf, Huge;
    if e.Deliver? || e.i != i {
      OtherWritten(s, e, i);
    } else {
      RotateSame(s.targets[i]);
      if e.Write? { WriteWritten(s.targets[i], e.m, e.room); }
      if e.Complete? && e.k < |s.targets[i].inFlight| {
        CompleteWritten(s.targets[i], e.k, |s.callbacks| < CALLBACK_QUEUE);
      }
    }
  }

  lemma OtherWritten(s: State, e: Event, i: nat)
    requires i < |s.targets| && (e.Deliver? || e.i != i)
    ensures i < |Apply(s, e).targets| && Apply(s, e).targets[i].written == s.targets[i].written
  {
    hide RotateOf, CompleteOf, WriteOf, FlushOf, ReturnOf;
  }

  lemma WriteWritten(t: Target, m: Message, room: bool)
    ensures WriteOf(t, m, room).t.written == t.written + if t.disabled || Huge(t, m) then [] else [m]
  {
    hide RotateOf, Huge, Bank.CopyLine;
    RotateSame(t);
  }

  lemma CompleteWritten(t: Target, k: nat, room: bool)
    requires k < |t.inFlight|
    ensures CompleteOf(t, k, room).t.written == t.written
  {
  }

  /** The counter covers all data not yet written out, so the flush timer runs while there is any. */
  lemma TimerRunsForData(s: State, es: seq<Event>)
    requires Initial(s)
    ensures var s2 := After(s, es);
            && s2.need >= SumWeight(s2.targets) && (s2.timer <==> s2.need > 0)
            && forall i :: 0 <= i < |s2.targets| ==> Pending(s2.targets[i]) ==> s2.timer
  {
    hide After, Weight, TargetsInv;
    RunInv(s, es);
    var s2 := After(s, es);
    forall i | 0 <= i < |s2.targets| && Pending(s2.targets[i]) ensures s2.timer {
      PendingWeighs(s2.targets[i]);
      NeedPositive(s2, i);
    }
  }

  /** The target holds data that has not been written out, or has an overflow write outstanding. */
  ghost predicate Pending(t: Target) {
    !t.current.IsEmpty() || t.out != [] || t.inFlight != [] || t.overflow > 0
  }

  lemma PendingWeighs(t: Target)
    requires Pending(t)
    ensures Weight(t) > 0
  {
  }

  /** A buffer given back to the default target is lost. */
  lemma DefaultTargetLosesBank(s: State, es: seq<Event>, k: nat)
    requires Initial(s) && 0 < |After(s, es).targets| && k < |After(s, es).targets[0].user|
    ensures var s2 := After(s, es + [Return(0, k)]);
            && 0 < |s2.targets|
            && s2.targets[0].dropped == After(s, es).targets[0].dropped + [After(s, es).targets[0].user[k]]
  {
    hide Initial;
    assert (es + [Return(0, k)])[..|es|] == es;
  }

  lemma AfterStep(s: State, es: seq<Event>, e: Event)
    ensures After(s, es + [e]) == Apply(After(s, es), e)
  {
    assert (es + [e])[..|es|] == es;
  }

  ghost function OneTarget(t: Target, callbacks: seq<Item>, need: nat): State {
    State([t], callbacks, need, need > 0, {})
  }

  /** Such a run exists: two banks, a callback, one line written, flushed, completed and delivered. */
  lemma DefaultTargetHandsOut(t: Target)
    requires t == NewTarget(2, 200, "")
    ensures var s := OneTarget(t, [], 0);
            var es := [SetCallback(0)] + [Write(0, Message("", "x", ""), true)] + [Rotate(0)] + [Flush(0, false)]
                      + [Complete(0, 0)] + [Deliver];
            Initial(s) && 0 < |After(s, es).targets| && |After(s, es).targets[0].user| == 1
  {
    hide After, Apply;
    var s, m, b, c := OneTarget(t, [], 0), Message("", "x", ""), Bank(0, "x", [0]), Bank(1, "", []);
    assert IsNew(s.targets[0]) && t.avail == [c];
    var t1 := t.(callback := true);
    HandOutCallback(t);
    var t2 := HandOutWrite(t1, m);
    var t3 := t2.(current := c, avail := [], out := [b]);
    HandOutFlush(t2, t3, b);
    var t4 := FlushOf(t3, false);
    HandOutComplete(t4, b);
    AfterNone(s);
    var es1 := [SetCallback(0)];
    assert [] + es1 == es1;
    AfterStep(s, [], SetCallback(0));
    AfterStep(s, es1, Write(0, m, true));
    AfterStep(s, es1 + [Write(0, m, true)], Rotate(0));
    AfterStep(s, es1 + [Write(0, m, true)] + [Rotate(0)], Flush(0, false));
    AfterStep(s, es1 + [Write(0, m, true)] + [Rotate(0)] + [Flush(0, false)], Complete(0, 0));
    AfterStep(s, es1 + [Write(0, m, true)] + [Rotate(0)] + [Flush(0, false)] + [Complete(0, 0)], Deliver);
  }

  lemma HandOutCallback(t: Target)
    ensures Apply(OneTarget(t, [], 0), SetCallback(0)) == OneTarget(t.(callback := true), [], 0)
  {
  }

  lemma AfterNone(s: State)
    ensures After(s, []) == s
  {
  }

  lemma HandOutWrite(t: Target, m: Message) returns (t2: Target)
    requires t == NewTarget(2, 200, "").(callback := true) && m == Message("", "x", "")
    ensures t2 == t.(current := Bank(0, "x", [0]), written := [m])
    ensures Apply(OneTarget(t, [], 0), Write(0, m, true)) == OneTarget(t2, [], 1)
  {
    t2 := t.(current := Bank(0, "x", [0]), written := [m]);
    CopyIsRendered(t.current, m, "", 0);
    assert Rendered(m, "") == "x";
    assert CopyOf(t, m) == t2;
  }

  lemma HandOutFlush(t2: Target, t3: Target, b: Bank)
    requires !b.IsEmpty() && t2.current == b && |t2.avail| == 1 && t2.numBanks == 2 && t2.out == []
    requires t3 == t2.(current := t2.avail[0], avail := [], out := [b])
    ensures Apply(OneTarget(t2, [], 1), Rotate(0)) == OneTarget(t3, [], 1)
    ensures Apply(OneTarget(t3, [], 1), Flush(0, false)) == OneTarget(FlushOf(t3, false), [], 1)
  {
    assert [t2][0 := t3] == [t3] && [t3][0 := FlushOf(t3, false)] == [FlushOf(t3, false)];
    assert RotateOf(t2).t == t3;
  }

  lemma HandOutComplete(t: Target, b: Bank)
    requires t.inFlight == [InFlight(b, false)] && t.user == [] && !b.IsEmpty() && t.callback
    ensures var t2 := t.(inFlight := []);
            && Apply(OneTarget(t, [], 1), Complete(0, 0)) == OneTarget(t2, [BankItem(0, b)], 0)
            && Apply(OneTarget(t2, [BankItem(0, b)], 0), Deliver) == OneTarget(t2.(user := [b]), [], 0)
  {
    var t2 := t.(inFlight := []);
    assert Without(t.inFlight, 0) == [];
    assert [t][0 := t2] == [t2] && [t2][0 := t2.(user := [b])] == [t2.(user := [b])];
    assert CompleteIn(OneTarget(t, [], 1), 0, 0) == OneTarget(t2, [BankItem(0, b)], 0);
    assert [BankItem(0, b)][1..] == [] && t.user + [b] == [b];
    assert DeliverIn(OneTarget(t2, [BankItem(0, b)], 0)) == OneTarget(t2.(user := [b]), [], 0);
  }
}
