/** Where a bank or an overflow write goes next, over every run: the callback queue holds ten, and what does not
    fit or is not wanted there does without a callback. */
module LogCalls {
  import opened LogBanks
  import opened LogBankSteps
  import opened LogRuns
  import opened LogKeepAlive

  /** A bank whose write completes waits for its callback, behind the others, exactly when a callback is set and
      wanted and fewer than ten wait; otherwise it is cleared and available again. */
  lemma CompletedBankGoes(s: State, es: seq<Event>, i: nat, k: nat)
    requires Initial(s) && i < |After(s, es).targets| && k < |After(s, es).targets[i].inFlight|
    ensures var s1, s2 := After(s, es), After(s, es + [Complete(i, k)]);
            var t, x := s1.targets[i], s1.targets[i].inFlight[k];
            && i < |s2.targets| && s2.targets[i].inFlight == t.inFlight[..k] + t.inFlight[k + 1..]
            && x.bank.text != "" && s1.need > 0 && s2.need == s1.need - 1
            && if t.callback && !x.nocallback && |s1.callbacks| < 10 then
                 s2.callbacks == s1.callbacks + [BankItem(i, x.bank)] && s2.targets[i].avail == t.avail
               else
                 s2.callbacks == s1.callbacks && s2.targets[i].avail == t.avail + [Bank(x.bank.id, "", [])]
  {
    hide After, Inv, TargetInv, Weight, SumWeight, Queued;
    RunInv(s, es);
    AfterStep(s, es, Complete(i, k));
    var s1, room := After(s, es), |After(s, es).callbacks| < CALLBACK_QUEUE;
    GoodTarget(s1, i);
    CompleteKeeps(s1.targets[i], Queued(s1.callbacks, i), k, room);
    CompletePositive(s1, i, k);
  }

  lemma CompletePositive(s: State, i: nat, k: nat)
    requires Inv(s) && i < |s.targets| && k < |s.targets[i].inFlight|
    ensures s.need > 0
  {
    hide Inv;
    NeedPositive(s, i);
  }

  /** The callback run next is the one that waited longest, and its bank, if it has one, goes to the user of its
      own target. */
  lemma DeliveredBankGoes(s: State, es: seq<Event>)
    requires Initial(s) && After(s, es).callbacks != []
    ensures var s1, s2 := After(s, es), After(s, es + [Deliver]);
            var x := s1.callbacks[0];
            && s2.callbacks == s1.callbacks[1..] && x.target < |s1.targets| == |s2.targets|
            && s2.targets[x.target].user == s1.targets[x.target].user + (if x.BankItem? then [x.bank] else [])
            && forall i :: 0 <= i < |s1.targets| && i != x.target ==> s2.targets[i] == s1.targets[i]
  {
    hide After, TargetsInv, KeepAlive;
    RunInv(s, es);
    AfterStep(s, es, Deliver);
  }

  /** A buffer given back to a registered target is cleared and available again. */
  lemma ReturnedBankGoes(s: State, es: seq<Event>, i: nat, k: nat)
    requires Initial(s) && 0 < i < |After(s, es).targets| && k < |After(s, es).targets[i].user|
    ensures var s1, s2 := After(s, es), After(s, es + [Return(i, k)]);
            var t, b := s1.targets[i], s1.targets[i].user[k];
            && i < |s2.targets| && s2.callbacks == s1.callbacks
            && s2.targets[i] == t.(user := t.user[..k] + t.user[k + 1..], avail := t.avail + [Bank(b.id, "", [])])
  {
    hide After, Inv, TargetInv, Weight, SumWeight, Queued;
    RunInv(s, es);
    AfterStep(s, es, Return(i, k));
    var s1 := After(s, es);
    GoodTarget(s1, i);
    ReturnKeeps(s1.targets[i], Queued(s1.callbacks, i), k, true);
  }

  /** An overflow write takes a reference; where its end is not tracked, its callback waits with the others at
      once, exactly when one is set and fewer than ten wait. */
  lemma OverflowGoes(s: State, es: seq<Event>, i: nat, tracked: bool)
    requires Initial(s) && i < |After(s, es).targets|
    ensures var s1, s2 := After(s, es), After(s, es + [Overflow(i, tracked)]);
            var t := s1.targets[i];
            if t.disabled then s2 == s1
            else
              && s2.need == s1.need + 1 && s2.timer
              && s2.targets == s1.targets[i := t.(overflow := t.overflow + if tracked then 1 else 0)]
              && s2.callbacks == s1.callbacks +
                 if !tracked && t.callback && |s1.callbacks| < 10 then [OverflowItem(i)] else []
  {
    hide After, Initial, Apply;
    TimerRunsWhenNeeded(s, es);
    AfterStep(s, es, Overflow(i, tracked));
    OverflowStepIs(After(s, es), i, tracked);
  }

  lemma OverflowStepIs(s: State, i: nat, tracked: bool)
    requires i < |s.targets| && (s.need > 0 ==> s.timer)
    ensures var s2, t := Apply(s, Overflow(i, tracked)), s.targets[i];
            if t.disabled then s2 == s
            else
              && s2.need == s.need + 1 && s2.timer
              && s2.targets == s.targets[i := t.(overflow := t.overflow + if tracked then 1 else 0)]
              && s2.callbacks == s.callbacks +
                 if !tracked && t.callback && |s.callbacks| < 10 then [OverflowItem(i)] else []
  {
    hide WriteOf, RotateOf, FlushOf, CompleteIn, ReturnOf, DeliverIn, OverflowDoneIn;
    assert s.callbacks + [] == s.callbacks && s.targets[i := s.targets[i]] == s.targets;
  }

  lemma TimerRunsWhenNeeded(s: State, es: seq<Event>)
    requires Initial(s)
    ensures After(s, es).need > 0 ==> After(s, es).timer
  {
    hide After, Initial, Pending, SumWeight;
    TimerRunsForData(s, es);
  }

  /** At its end it gives the reference up, and its callback waits with the others exactly when one is set and
      fewer than ten wait. */
  lemma OverflowDoneGoes(s: State, es: seq<Event>, i: nat)
    requires Initial(s) && i < |After(s, es).targets|
    ensures var s1, s2 := After(s, es), After(s, es + [OverflowDone(i)]);
            var t := s1.targets[i];
            if t.overflow == 0 then s2 == s1
            else
              && s1.need > 0 && s2.need == s1.need - 1
              && s2.targets == s1.targets[i := t.(overflow := t.overflow - 1)]
              && s2.callbacks == s1.callbacks + if t.callback && |s1.callbacks| < 10 then [OverflowItem(i)] else []
  {
    hide After, Initial, Inv, SumWeight;
    RunInv(s, es);
    AfterStep(s, es, OverflowDone(i));
    var s1 := After(s, es);
    assert s1.callbacks + [] == s1.callbacks;
    if s1.targets[i].overflow > 0 { NeedPositive(s1, i); }
  }
}
