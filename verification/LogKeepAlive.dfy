/** Exactly what the logger's keep-alive counter counts, over every run: the data not yet written out, and the
    references that nothing will ever give back. */
module LogKeepAlive {
  import opened LogBanks
  import opened LogBankSteps
  import opened LogRuns

  /** References a write to the target leaves behind for good: one when it starts an empty bank with nothing,
      one when it clears a bank that had data. */
  function StrayWrite(t: Target, m: Message): nat {
    var size := |m.header| + |m.text| + |m.footer|;
    if t.disabled || |m.text| + 128 > t.bankSize then 0
    else if size == 0 then (if |t.current.text| == 0 then 1 else 0)
    else if |t.current.text| + size + |t.delim| <= t.bankSize then 0
    else StrayRotate(t)
  }

  /** A rotation with no bank to take over throws the current data away, but not its reference. */
  function StrayRotate(t: Target): nat {
    if |t.current.text| > 0 && t.avail == [] then 1 else 0
  }

  /** An overflow write that is not tracked to its end keeps its reference too. */
  function Stray(s: State, e: Event): nat {
    if e.Deliver? || e.i >= |s.targets| then 0
    else if e.Write? then StrayWrite(s.targets[e.i], e.m)
    else if e.Rotate? then StrayRotate(s.targets[e.i])
    else if e.Overflow? && !e.tracked && !s.targets[e.i].disabled then 1
    else 0
  }

  function Strays(s: State, es: seq<Event>): nat {
    if es == [] then 0 else Strays(s, es[..|es| - 1]) + Stray(After(s, es[..|es| - 1]), es[|es| - 1])
  }

  lemma RotateWeighs(t: Target, queued: seq<Bank>)
    requires TargetInv(t, queued)
    ensures Weight(RotateOf(t).t) + StrayRotate(t) == Weight(t)
  {
    hide Conserved, InOrder, WholeLines;
    RotateFits(t, queued);
  }

  lemma CopyWeighs(t: Target, m: Message)
    ensures Weight(CopyOf(t, m)) ==
            Weight(t) + if t.current.IsEmpty() && |m.header| + |m.text| + |m.footer| > 0 then 1 else 0
  {
    hide Bank.CopyLine;
    CopyIsRendered(t.current, m, t.delim, |t.written|);
  }

  lemma WriteWeighs(t: Target, queued: seq<Bank>, m: Message, room: bool)
    requires TargetInv(t, queued)
    ensures var e := WriteOf(t, m, room);
            Weight(e.t) + StrayWrite(t, m) == Weight(t) + if e.ref then 1 else 0
  {
    hide TargetInv, RotateOf, CopyOf, Bank.Remain, Weight;
    FitsIff(t, m);
    RotateWeighs(t, queued);
    RotateOutcome(t, queued);
    var r := RotateOf(t);
    CopyWeighs(t, m);
    CopyWeighs(r.t, m);
    HistoryWeightless(r.t, t.written + [m]);
  }

  lemma HistoryWeightless(t: Target, written: seq<Message>)
    ensures Weight(t.(written := written)) == Weight(t)
  {
  }

  lemma RotateOutcome(t: Target, queued: seq<Bank>)
    requires TargetInv(t, queued)
    ensures RotateOf(t).ok <==> |t.current.text| > 0 && t.avail != []
    ensures RotateOf(t).ok ==> RotateOf(t).t.current.IsEmpty()
  {
    hide Conserved, InOrder, WholeLines, Weight;
    RotateFits(t, queued);
    RotateFills(t);
  }

  /** One step changes the counter by what it changes the data to be written out, and by its strays. */
  lemma NeedStep(s: State, e: Event)
    requires Inv(s)
    ensures Apply(s, e).need - SumWeight(Apply(s, e).targets) == s.need - SumWeight(s.targets) + Stray(s, e)
  {
    hide Inv, TargetInv, Good, Weight, SumWeight, Queued, WriteOf, RotateOf, CompleteIn, DeliverIn, OverflowDoneIn,
         FlushOf, ReturnOf,
         StrayWrite, StrayRotate;
    if e.Deliver? {
      if s.callbacks != [] { DeliverNeed(s); }
    } else if e.i < |s.targets| {
      var i, t, q := e.i, s.targets[e.i], Queued(s.callbacks, e.i);
      GoodTarget(s, i);
      match e
      case Write(_, m, room) =>
        WriteWeighs(t, q, m, room);
        TargetNeed(s, ApplyAt(s, e, i), i, WriteOf(t, m, room).t);
      case Rotate(_) =>
        RotateWeighs(t, q);
        TargetNeed(s, ApplyAt(s, e, i), i, RotateOf(t).t);
      case Flush(_, nocallback) =>
        if t.out != [] {
          FlushKeeps(t, q, nocallback);
          TargetNeed(s, ApplyAt(s, e, i), i, FlushOf(t, nocallback));
        }
      case Complete(_, k) => if k < |t.inFlight| { CompleteNeed(s, i, k); }
      case Return(_, k) =>
        if k < |t.user| {
          ReturnKeeps(t, q, k, i != 0);
          TargetNeed(s, ApplyAt(s, e, i), i, ReturnOf(t, k, i != 0).t);
        }
      case SetCallback(_) => SettingNeed(s, i, t.(callback := true));
      case SetDisabled(_, d) => SettingNeed(s, i, t.(disabled := d));
      case Overflow(_, tracked) => SettingNeed(s, i, t.(overflow := t.overflow + 1));
      case OverflowDone(_) => if t.overflow > 0 { OverflowDoneNeed(s, i); }
    }
  }

  lemma TargetNeed(s: State, s2: State, i: nat, t: Target)
    requires i < |s.targets| && s2.targets == s.targets[i := t]
    ensures SumWeight(s2.targets) == SumWeight(s.targets) - Weight(s.targets[i]) + Weight(t)
  {
    hide SumWeight, Weight;
    SumUpdate(s.targets, i, t);
  }

  lemma GoodTarget(s: State, i: nat)
    requires Inv(s) && i < |s.targets|
    ensures TargetInv(s.targets[i], Queued(s.callbacks, i))
  {
    hide TargetInv, Queued, Weight, SumWeight;
    assert Good(s.targets[i], Queued(s.callbacks, i), i);
  }

  lemma SettingNeed(s: State, i: nat, t2: Target)
    requires i < |s.targets|
    requires t2 == s.targets[i].(callback := t2.callback, disabled := t2.disabled, overflow := t2.overflow)
    ensures SumWeight(s.targets[i := t2]) == SumWeight(s.targets) + t2.overflow - s.targets[i].overflow
  {
    hide SumWeight;
    SumUpdate(s.targets, i, t2);
  }

  lemma CompleteNeed(s: State, i: nat, k: nat)
    requires Inv(s) && i < |s.targets| && k < |s.targets[i].inFlight|
    ensures CompleteIn(s, i, k).need - SumWeight(CompleteIn(s, i, k).targets) == s.need - SumWeight(s.targets)
  {
    hide TargetInv, Weight, Queued, SumWeight, CompleteOf, Good;
    var t, room := s.targets[i], |s.callbacks| < CALLBACK_QUEUE;
    GoodTarget(s, i);
    CompleteKeeps(t, Queued(s.callbacks, i), k, room);
    NeedPositive(s, i);
    SumUpdate(s.targets, i, CompleteOf(t, k, room).t);
  }

  lemma OverflowDoneNeed(s: State, i: nat)
    requires Inv(s) && i < |s.targets| && s.targets[i].overflow > 0
    ensures OverflowDoneIn(s, i).need - SumWeight(OverflowDoneIn(s, i).targets) == s.need - SumWeight(s.targets)
  {
    hide SumWeight, Good, Queued;
    NeedPositive(s, i);
    SettingNeed(s, i, s.targets[i].(overflow := s.targets[i].overflow - 1));
  }

  lemma DeliverNeed(s: State)
    requires s.callbacks != []
    ensures DeliverIn(s).need == s.need && SumWeight(DeliverIn(s).targets) == SumWeight(s.targets)
  {
    hide SumWeight;
    var x := s.callbacks[0];
    if x.BankItem? && x.target < |s.targets| {
      var t := s.targets[x.target];
      UserWeightless(t, x.bank);
      SumUpdate(s.targets, x.target, t.(user := t.user + [x.bank]));
    }
  }

  /** In every reachable state the counter is the data not yet written out and the strays so far. */
  lemma {:induction false} NeedIsExact(s: State, es: seq<Event>)
    requires Initial(s)
    ensures After(s, es).need == SumWeight(After(s, es).targets) + Strays(s, es)
  {
    hide Apply, Inv, Weight;
    if es == [] {
      NoWeight(s);
    } else {
      var front := es[..|es| - 1];
      NeedIsExact(s, front);
      RunInv(s, front);
      NeedStep(After(s, front), es[|es| - 1]);
    }
  }

  lemma NoWeight(s: State)
    requires Initial(s)
    ensures SumWeight(s.targets) == 0
  {
    hide SumWeight;
    forall i | 0 <= i < |s.targets| ensures Weight(s.targets[i]) == 0 { assert IsNew(s.targets[i]); }
    SumZero(s.targets);
  }

  /** So the flush timer stops exactly when nothing is left to write out and nothing has gone astray: after one
      stray it never stops again. */
  lemma TimerStopsIff(s: State, es: seq<Event>)
    requires Initial(s)
    ensures !After(s, es).timer <==>
            Strays(s, es) == 0 && forall i :: 0 <= i < |After(s, es).targets| ==> !Pending(After(s, es).targets[i])
  {
    hide After, Strays, SumWeight, Weight, Pending;
    NeedIsExact(s, es);
    TimerRunsForData(s, es);
    var ts := After(s, es).targets;
    forall i | 0 <= i < |ts| ensures Pending(ts[i]) <==> Weight(ts[i]) > 0 { PendingIff(ts[i]); }
    if forall i :: 0 <= i < |ts| ==> !Pending(ts[i]) { SumZero(ts); }
  }

  lemma PendingIff(t: Target)
    ensures Pending(t) <==> Weight(t) > 0
  {
  }
}
