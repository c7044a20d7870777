/** What every operation on a target keeps. */
module LogBankSteps {
  import opened LogBanks

  ghost predicate TargetInv(t: Target, queued: seq<Bank>) {
    Conserved(t, queued) && Filled(t) && InOrder(t) && WholeLines(t, queued)
  }

  /** How many keep-alive references the target's data needs. */
  ghost function Weight(t: Target): nat {
    (if t.current.IsEmpty() then 0 else 1) + |t.out| + |t.inFlight| + t.overflow
  }

  lemma NewTargetInv(numBanks: nat, bankSize: nat, delim: string)
    requires numBanks > 0
    ensures TargetInv(NewTarget(numBanks, bankSize, delim), []) && Weight(NewTarget(numBanks, bankSize, delim)) == 0
  {
    var t := NewTarget(numBanks, bankSize, delim);
    var held := Held(t, []);
    NewConserved(numBanks, bankSize, delim);
    assert Kept(t) == [];
  }

  lemma NewConserved(numBanks: nat, bankSize: nat, delim: string)
    requires numBanks > 0
    ensures Conserved(NewTarget(numBanks, bankSize, delim), [])
  {
    hide Held;
    var t := NewTarget(numBanks, bankSize, delim);
    HeldIds(t, []);
    NewIds(numBanks, t.avail);
    assert BanksInFlight([]) == [];
    assert Ids([]) == multiset{};
  }

  lemma NewIds(n: nat, avail: seq<Bank>)
    requires |avail| + 1 == n && forall i :: 0 <= i < |avail| ==> avail[i].id == i + 1
    ensures Ids(avail) + multiset{0} == AllIds(n)
  {
    var ids := seq(|avail|, i requires 0 <= i < |avail| => avail[i].id);
    var all := seq(n, i requires 0 <= i => i);
    assert all == [0] + ids;
    assert Ids(avail) == multiset(ids) && AllIds(n) == multiset(all);
  }

  // Rotation

  lemma RotateFits(t: Target, queued: seq<Bank>)
    requires Conserved(t, queued)
    ensures RotateOf(t).failures == {} && (!t.current.IsEmpty() && t.avail != [] ==> RotateOf(t).ok)
    ensures RotateOf(t).t.dropped == t.dropped
  {
    Capacity(t, queued);
  }

  lemma RotateConserves(t: Target, queued: seq<Bank>)
    requires Conserved(t, queued)
    ensures Conserved(RotateOf(t).t, queued)
  {
    hide Held, Ids, AllIds;
    var t2 := RotateOf(t).t;
    RotateFits(t, queued);
    HeldIds(t, queued);
    HeldIds(t2, queued);
    if RotateOf(t).ok {
      IdsOne(t.current);
      IdsJoin(t.out, [t.current]);
      IdsFirst(t.avail);
    }
  }

  lemma IdsFirst(bs: seq<Bank>)
    requires bs != []
    ensures Ids(bs) == multiset{bs[0].id} + Ids(bs[1..])
  {
    hide Ids;
    assert bs == [bs[0]] + bs[1..];
    IdsJoin([bs[0]], bs[1..]);
    IdsOne(bs[0]);
  }

  lemma RotateFills(t: Target)
    requires Filled(t) && RotateOf(t).failures == {}
    ensures Filled(RotateOf(t).t)
    ensures (RotateOf(t).ok ==> RotateOf(t).t.current.IsEmpty() && RotateOf(t).t.current.msgs == [])
    ensures RotateOf(t).ok ==> Weight(RotateOf(t).t) == Weight(t)
    ensures !RotateOf(t).ok ==> RotateOf(t).t.current.IsEmpty() && Weight(RotateOf(t).t) <= Weight(t)
  {
  }

  lemma RotateOrders(t: Target)
    requires InOrder(t) && Filled(t)
    ensures InOrder(RotateOf(t).t) && (RotateOf(t).ok ==> Kept(RotateOf(t).t) == Kept(t))
  {
    hide MsgsOf, TextOf;
    var t2 := RotateOf(t).t;
    if RotateOf(t).ok {
      MsgsOfAppend(t.out, [t.current]);
      MsgsOfOne(t.current);
      assert Kept(t2) == t.flushed + (MsgsOf(t.out) + t.current.msgs) + [];
      assert Kept(t2) == Kept(t);
    } else if !t.current.IsEmpty() {
      assert Kept(t2) == Kept(t)[..|Kept(t2)|];
    }
  }

  lemma EmptyLines(b: Bank, written: seq<Message>, delim: string, bankSize: nat)
    requires b.IsEmpty() && b.msgs == []
    ensures BankLines(b, written, delim, bankSize)
  {
  }

  lemma RotateLines(t: Target, queued: seq<Bank>)
    requires WholeLines(t, queued) && Filled(t)
    ensures WholeLines(RotateOf(t).t, queued)
  {
    hide BankLines;
    EmptyLines(t.current.Cleared(), t.written, t.delim, t.bankSize);
    if t.avail != [] { EmptyLines(t.avail[0], t.written, t.delim, t.bankSize); }
  }

  lemma RotateKeeps(t: Target, queued: seq<Bank>)
    requires TargetInv(t, queued)
    ensures TargetInv(RotateOf(t).t, queued) && RotateOf(t).failures == {} && RotateOf(t).t.dropped == t.dropped
    ensures Weight(RotateOf(t).t) <= Weight(t)
    ensures RotateOf(t).ok ==> RotateOf(t).t.current.IsEmpty() && RotateOf(t).t.current.msgs == []
  {
    hide Conserved, Filled, InOrder, WholeLines, RotateOf, Weight;
    RotateFits(t, queued);
    RotateConserves(t, queued);
    RotateFills(t);
    RotateOrders(t);
    RotateLines(t, queued);
  }

  // Copying a message into the current bank

  lemma LaterAll(bs: seq<Bank>, written: seq<Message>, m: Message, delim: string, bankSize: nat)
    requires AllLines(bs, written, delim, bankSize)
    ensures AllLines(bs, written + [m], delim, bankSize)
  {
    hide BankLines;
    forall i | 0 <= i < |bs| ensures BankLines(bs[i], written + [m], delim, bankSize) {
      LaterLines(bs[i], written, m, delim, bankSize);
    }
  }

  ghost predicate LineFits(t: Target, m: Message) {
    PrefixesFit(t.written + [m], t.delim) ==> |t.current.text| + |Rendered(m, t.delim)| <= t.bankSize
  }

  lemma CopyLines(t: Target, queued: seq<Bank>, m: Message)
    requires WholeLines(t, queued) && LineFits(t, m)
    ensures WholeLines(CopyOf(t, m), queued)
  {
    hide BankLines, AllLines, PrefixesFit, Rendered;
    LaterAll(t.out, t.written, m, t.delim, t.bankSize);
    LaterAll(BanksInFlight(t.inFlight), t.written, m, t.delim, t.bankSize);
    LaterAll(queued, t.written, m, t.delim, t.bankSize);
    LaterAll(t.user, t.written, m, t.delim, t.bankSize);
    CopyKeepsLines(t.current, t.written, m, t.delim, t.bankSize);
    RenderAllLater(t.flushed, t.written, m, t.delim);
  }

  lemma CopyOrders(t: Target, m: Message)
    requires InOrder(t)
    ensures InOrder(CopyOf(t, m)) && Kept(CopyOf(t, m)) == Kept(t) + [|t.written|]
  {
    CopyIsRendered(t.current, m, t.delim, |t.written|);
    hide MsgsOf;
    assert Kept(CopyOf(t, m)) == Kept(t) + [|t.written|];
  }

  lemma CopyKeeps(t: Target, queued: seq<Bank>, m: Message)
    requires TargetInv(t, queued) && LineFits(t, m)
    ensures TargetInv(CopyOf(t, m), queued) && Weight(CopyOf(t, m)) <= Weight(t) + if t.current.IsEmpty() then 1 else 0
  {
    hide WholeLines, InOrder, LineFits;
    CopyLines(t, queued, m);
    CopyOrders(t, m);
    CopyIsRendered(t.current, m, t.delim, |t.written|);
    CopyConserves(t, queued, m);
  }

  lemma CopyConserves(t: Target, queued: seq<Bank>, m: Message)
    requires Conserved(t, queued)
    ensures Conserved(CopyOf(t, m), queued)
  {
    hide Ids, Held;
    HeldIds(t, queued);
    HeldIds(CopyOf(t, m), queued);
    CopyIsRendered(t.current, m, t.delim, |t.written|);
  }

  /** A message that is lost whole still counts as written. */
  lemma LoseMessage(t: Target, queued: seq<Bank>, m: Message)
    requires TargetInv(t, queued)
    ensures TargetInv(t.(written := t.written + [m]), queued)
  {
    hide BankLines, AllLines;
    LaterAll(t.out, t.written, m, t.delim, t.bankSize);
    LaterAll(BanksInFlight(t.inFlight), t.written, m, t.delim, t.bankSize);
    LaterAll(queued, t.written, m, t.delim, t.bankSize);
    LaterAll(t.user, t.written, m, t.delim, t.bankSize);
    LaterLines(t.current, t.written, m, t.delim, t.bankSize);
    RenderAllLater(t.flushed, t.written, m, t.delim);
    assert Kept(t.(written := t.written + [m])) == Kept(t);
    assert Held(t.(written := t.written + [m]), queued) == Held(t, queued);
  }

  lemma FitsHere(t: Target, m: Message)
    requires t.current.Remain(t.bankSize, t.delim) >= |m.text| + |m.header| + |m.footer|
    requires PrefixesFit(t.written, t.delim) ==> |t.current.text| <= t.bankSize
    ensures LineFits(t, m)
  {
    RenderedSize(m, t.delim);
    if PrefixesFit(t.written + [m], t.delim) { FitsPrefix(t.written, m, t.delim); }
  }

  lemma FitsPrefix(written: seq<Message>, m: Message, delim: string)
    requires PrefixesFit(written + [m], delim)
    ensures PrefixesFit(written, delim) && |m.header| + |m.footer| + |delim| <= MAX_PREFIX
  {
    assert (written + [m])[|written|] == m;
    assert forall i :: 0 <= i < |written| ==> (written + [m])[i] == written[i];
  }

  lemma FitsFresh(t: Target, m: Message)
    requires t.current.IsEmpty() && !Huge(t, m)
    ensures LineFits(t, m)
  {
    if PrefixesFit(t.written + [m], t.delim) {
      FitsPrefix(t.written, m, t.delim);
      FreshBankFits(m, t.delim, t.bankSize);
    }
  }

  lemma WriteKeeps(t: Target, queued: seq<Bank>, m: Message, room: bool)
    requires TargetInv(t, queued)
    ensures var e := WriteOf(t, m, room);
            && TargetInv(e.t, queued) && e.failures == {} && e.t.dropped == t.dropped
            && Weight(e.t) <= Weight(t) + if e.ref then 1 else 0
  {
    hide Conserved, Filled, InOrder, LineFits, Rendered, RotateOf;
    assert BankLines(t.current, t.written, t.delim, t.bankSize);
    if t.disabled || Huge(t, m) {
    } else if t.current.Remain(t.bankSize, t.delim) >= |m.text| + |m.header| + |m.footer| {
      FitsHere(t, m);
      CopyKeeps(t, queued, m);
    } else {
      RotateKeeps(t, queued);
      RotateSame(t);
      var r := RotateOf(t);
      if r.ok && room {
        FitsFresh(r.t, m);
        CopyKeeps(r.t, queued, m);
      } else {
        LoseMessage(r.t, queued, m);
      }
    }
  }

  /** Rotation touches neither the settings nor the history of a target. */
  lemma RotateSame(t: Target)
    ensures var r := RotateOf(t).t;
            && r.written == t.written && r.delim == t.delim && r.bankSize == t.bankSize && r.numBanks == t.numBanks
            && r.flushed == t.flushed && r.overflow == t.overflow && r.callback == t.callback
            && r.inFlight == t.inFlight
  {
  }

  predicate FitsCurrent(t: Target, m: Message) {
    t.current.Remain(t.bankSize, t.delim) >= |m.text| + |m.header| + |m.footer|
  }

  /** What remain is compared with, as plain arithmetic: the bank has room for the whole line, delimiter
      included, or there is nothing to write. */
  lemma FitsIff(t: Target, m: Message)
    ensures FitsCurrent(t, m) <==>
            || |m.header| + |m.text| + |m.footer| == 0
            || |t.current.text| + |m.header| + |m.text| + |m.footer| + |t.delim| <= t.bankSize
  {
  }

  /** Exactly when a message is kept, and exactly what is lost otherwise: with no bank to take over,
      the current bank's messages and the new one; with no room for the rotate command, the new one. */
  lemma MessageKept(t: Target, queued: seq<Bank>, m: Message, room: bool)
    requires TargetInv(t, queued) && !t.disabled && |m.text| + MAX_PREFIX <= t.bankSize
    ensures var kept := Kept(WriteOf(t, m, room).t);
            var size := |m.header| + |m.text| + |m.footer|;
            if size == 0 || |t.current.text| + size + |t.delim| <= t.bankSize then
              && kept == Kept(t) + [|t.written|]
              && WriteOf(t, m, room).t.current.text == t.current.text + Rendered(m, t.delim)
            else if |t.current.text| > 0 && t.avail != [] && room then
              && kept == Kept(t) + [|t.written|]
              && WriteOf(t, m, room).t.current.text == Rendered(m, t.delim)
              && WriteOf(t, m, room).t.out == t.out + [t.current]
            else if |t.current.text| > 0 && t.avail == [] then kept == t.flushed + MsgsOf(t.out)
            else kept == Kept(t)
  {
    hide Conserved, Filled, WholeLines, RotateOf, MsgsOf, Bank.Remain, Bank.CopyLine, Rendered;
    FitsIff(t, m);
    CopyIsRendered(t.current, m, t.delim, |t.written|);
    if FitsCurrent(t, m) {
      CopyOrders(t, m);
    } else {
      RotateFits(t, queued);
      RotateOrders(t);
      RotateSame(t);
      RotateKeeps(t, queued);
      var r := RotateOf(t);
      RotateKept(t);
      if r.ok && room {
        CopyIsRendered(r.t.current, m, t.delim, |t.written|);
        CopyOrders(r.t, m);
      } else {
        assert Kept(r.t.(written := t.written + [m])) == Kept(r.t);
      }
    }
  }

  lemma RotateKept(t: Target)
    ensures !RotateOf(t).ok && t.current.IsEmpty() ==> RotateOf(t).t == t
    ensures !t.current.IsEmpty() && t.avail == [] ==>
            !RotateOf(t).ok && Kept(RotateOf(t).t) == t.flushed + MsgsOf(t.out)
    ensures RotateOf(t).ok ==> !t.current.IsEmpty() && t.avail != [] && RotateOf(t).t.out == t.out + [t.current]
  {
    hide MsgsOf;
  }

  // Flushing

  lemma FlushOrders(t: Target, nocallback: bool)
    requires t.out != [] && InOrder(t)
    ensures InOrder(FlushOf(t, nocallback)) && Kept(FlushOf(t, nocallback)) == Kept(t)
  {
    hide MsgsOf, TextOf;
    var b, rest := t.out[0], t.out[1..];
    assert t.out == [b] + rest;
    MsgsOfAppend([b], rest);
    MsgsOfOne(b);
    assert Kept(FlushOf(t, nocallback)) == Kept(t);
  }

  lemma FlushLines(t: Target, queued: seq<Bank>, nocallback: bool)
    requires t.out != [] && WholeLines(t, queued)
    ensures WholeLines(FlushOf(t, nocallback), queued)
  {
    hide RenderAll, PrefixesFit;
    var b := t.out[0];
    assert BankLines(b, t.written, t.delim, t.bankSize);
    RenderAllAppend(t.flushed, b.msgs, t.written, t.delim);
    InFlightAppend(t.inFlight, InFlight(b, nocallback));
  }

  lemma InFlightAppend(xs: seq<InFlight>, x: InFlight)
    ensures BanksInFlight(xs + [x]) == BanksInFlight(xs) + [x.bank]
  {
  }

  lemma FlushConserves(t: Target, queued: seq<Bank>, nocallback: bool)
    requires t.out != [] && Conserved(t, queued)
    ensures Conserved(FlushOf(t, nocallback), queued)
  {
    hide Ids, Held;
    var t2, b := FlushOf(t, nocallback), t.out[0];
    HeldIds(t, queued);
    HeldIds(t2, queued);
    IdsFirst(t.out);
    InFlightAppend(t.inFlight, InFlight(b, nocallback));
    IdsJoin(BanksInFlight(t.inFlight), [b]);
    IdsOne(b);
  }

  lemma FlushKeeps(t: Target, queued: seq<Bank>, nocallback: bool)
    requires TargetInv(t, queued) && t.out != []
    ensures TargetInv(FlushOf(t, nocallback), queued) && Weight(FlushOf(t, nocallback)) == Weight(t)
    ensures FlushOf(t, nocallback).dropped == t.dropped
  {
    hide Conserved, InOrder, WholeLines;
    FlushConserves(t, queued, nocallback);
    FlushOrders(t, nocallback);
    FlushLines(t, queued, nocallback);
  }

  // A bank that leaves one place for another

  lemma IdsWithout(bs: seq<Bank>, k: nat)
    requires k < |bs|
    ensures Ids(bs) == Ids(Without(bs, k)) + multiset{bs[k].id}
  {
    hide Ids;
    assert bs == bs[..k] + ([bs[k]] + bs[k + 1..]);
    IdsJoin(bs[..k], [bs[k]] + bs[k + 1..]);
    IdsJoin([bs[k]], bs[k + 1..]);
    IdsOne(bs[k]);
    IdsJoin(bs[..k], bs[k + 1..]);
  }

  lemma InFlightWithout(xs: seq<InFlight>, k: nat)
    requires k < |xs|
    ensures BanksInFlight(Without(xs, k)) == Without(BanksInFlight(xs), k)
  {
  }

  /** Giving bank b, which had left its place, back to the available ones. */
  lemma BackKeeps(t: Target, queued: seq<Bank>, b: Bank)
    requires Filled(t) && InOrder(t) && WholeLines(t, queued)
    requires Ids(Held(t, queued)) + multiset{b.id} == AllIds(t.numBanks)
    ensures TargetInv(BackOf(t, b).t, queued) && BackOf(t, b).failures == {} && BackOf(t, b).t.dropped == t.dropped
    ensures Weight(BackOf(t, b).t) == Weight(t)
  {
    hide Ids, Held, WholeLines;
    HeldIds(t, queued);
    assert |AllIds(t.numBanks)| == t.numBanks;
    assert |Ids(Held(t, queued))| == t.numBanks - 1;
    var t2 := t.(avail := t.avail + [b.Cleared()]);
    assert BackOf(t, b).t == t2;
    HeldIds(t2, queued);
    IdsJoin(t.avail, [b.Cleared()]);
    IdsOne(b.Cleared());
    SameLines(t, t2, queued);
    assert Kept(t2) == Kept(t);
  }

  lemma SameLines(t: Target, t2: Target, queued: seq<Bank>)
    requires WholeLines(t, queued) && t2 == t.(avail := t2.avail)
    ensures WholeLines(t2, queued)
  {
  }

  lemma CompleteKeeps(t: Target, queued: seq<Bank>, k: nat, room: bool)
    requires TargetInv(t, queued) && k < |t.inFlight|
    ensures var e := CompleteOf(t, k, room);
            && TargetInv(e.t, if WantsCallback(t, t.inFlight[k]) && room then queued + [t.inFlight[k].bank] else queued)
            && e.failures == {} && e.t.dropped == t.dropped && Weight(e.t) == Weight(t) - 1
            && !t.inFlight[k].bank.IsEmpty()
  {
    hide Ids, Held, WholeLines, BackOf;
    var b, t2 := t.inFlight[k].bank, t.(inFlight := Without(t.inFlight, k));
    InFlightWithout(t.inFlight, k);
    IdsWithout(BanksInFlight(t.inFlight), k);
    HeldIds(t, queued);
    HeldIds(t2, queued);
    LandLines(t, queued, k);
    assert Kept(t2) == Kept(t);
    if WantsCallback(t, t.inFlight[k]) && room {
      HeldIds(t2, queued + [b]);
      IdsJoin(queued, [b]);
      IdsOne(b);
    } else {
      BackKeeps(t2, queued, b);
    }
  }

  lemma LandLines(t: Target, queued: seq<Bank>, k: nat)
    requires WholeLines(t, queued) && k < |t.inFlight|
    ensures WholeLines(t.(inFlight := Without(t.inFlight, k)), queued)
    ensures WholeLines(t.(inFlight := Without(t.inFlight, k)), queued + [t.inFlight[k].bank])
  {
    hide BankLines, RenderAll;
    InFlightWithout(t.inFlight, k);
    assert BankLines(BanksInFlight(t.inFlight)[k], t.written, t.delim, t.bankSize);
  }

  /** The callback at the head of the queue hands its bank to the user. */
  lemma DeliverKeeps(t: Target, queued: seq<Bank>)
    requires TargetInv(t, queued) && queued != []
    ensures TargetInv(t.(user := t.user + [queued[0]]), queued[1..])
  {
    hide Ids, Held, BankLines, RenderAll;
    var t2 := t.(user := t.user + [queued[0]]);
    HeldIds(t, queued);
    HeldIds(t2, queued[1..]);
    IdsFirst(queued);
    IdsJoin(t.user, [queued[0]]);
    IdsOne(queued[0]);
    assert Kept(t2) == Kept(t);
  }

  lemma ReturnKeeps(t: Target, queued: seq<Bank>, k: nat, registered: bool)
    requires TargetInv(t, queued) && k < |t.user|
    ensures var e := ReturnOf(t, k, registered);
            && TargetInv(e.t, queued) && e.failures == {} && Weight(e.t) == Weight(t)
            && (e.t.dropped == t.dropped <==> registered)
  {
    hide Ids, Held, WholeLines, BackOf;
    if registered {
      var t2 := t.(user := Without(t.user, k));
      IdsWithout(t.user, k);
      HeldIds(t, queued);
      HeldIds(t2, queued);
      UserLines(t, queued, k);
      assert Kept(t2) == Kept(t);
      BackKeeps(t2, queued, t.user[k]);
    } else {
      DropKeeps(t, queued, k);
    }
  }

  lemma DropKeeps(t: Target, queued: seq<Bank>, k: nat)
    requires TargetInv(t, queued) && k < |t.user|
    ensures TargetInv(t.(user := Without(t.user, k), dropped := t.dropped + [t.user[k]]), queued)
  {
    hide Ids, Held, WholeLines;
    var b, t3 := t.user[k], t.(user := Without(t.user, k), dropped := t.dropped + [t.user[k]]);
    IdsWithout(t.user, k);
    HeldIds(t, queued);
    HeldIds(t3, queued);
    IdsJoin(t.dropped, [b]);
    IdsOne(b);
    UserLines(t, queued, k);
    assert Kept(t3) == Kept(t);
  }

  lemma UserLines(t: Target, queued: seq<Bank>, k: nat)
    requires WholeLines(t, queued) && k < |t.user|
    ensures WholeLines(t.(user := Without(t.user, k)), queued)
    ensures WholeLines(t.(user := Without(t.user, k), dropped := t.dropped + [t.user[k]]), queued)
  {
    hide BankLines, RenderAll;
  }
}
