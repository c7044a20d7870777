/** The methods of a log target and of the logger that owns it, proved to do what the step functions
    say. */
module LogTargets {
  import opened LogBanks
  import opened LogBankSteps
  import opened LogRuns

  /** What write asks of the logger's thread. */
  datatype Command = NoCommand | TargetRotateBuffer(id: nat) | WriteTargetOverflow(id: nat, text: string)

  class GreaseLogger {
    var needGreaseThread: nat
    var flushTimer: bool
    var callerLogCallbacks: seq<Item>

    constructor ()
      ensures needGreaseThread == 0 && !flushTimer && callerLogCallbacks == []
    {
      needGreaseThread, flushTimer, callerLogCallbacks := 0, false, [];
    }

    /** refGreaseInGrease: the timer runs exactly while the counter is positive. */
    method RefGreaseInGrease()
      modifies this
      ensures needGreaseThread == old(needGreaseThread) + 1 && callerLogCallbacks == old(callerLogCallbacks)
      ensures old(flushTimer == (needGreaseThread > 0)) ==> flushTimer
    {
      if needGreaseThread == 0 { flushTimer := true; }
      needGreaseThread := needGreaseThread + 1;
    }

    method UnrefGreaseInGrease()
      requires needGreaseThread > 0
      modifies this
      ensures needGreaseThread == old(needGreaseThread) - 1 && callerLogCallbacks == old(callerLogCallbacks)
      ensures old(flushTimer) ==> flushTimer == (needGreaseThread > 0)
    {
      needGreaseThread := needGreaseThread - 1;
      if needGreaseThread < 1 { flushTimer := false; }
    }

    method AddCallback(x: Item) returns (ok: bool)
      modifies this
      ensures ok == (|old(callerLogCallbacks)| < CALLBACK_QUEUE) && needGreaseThread == old(needGreaseThread)
      ensures callerLogCallbacks == old(callerLogCallbacks) + if ok then [x] else []
      ensures flushTimer == old(flushTimer)
    {
      ok := |callerLogCallbacks| < CALLBACK_QUEUE;
      if ok { callerLogCallbacks := callerLogCallbacks + [x]; }
    }
  }

  class LogTarget {
    const owner: GreaseLogger
    const myId: nat
    const numBanks: nat
    const bankSize: nat
    const delim: string
    var disabled: bool
    var logCallbackSet: bool
    var availBuffers: seq<Bank>
    var currentBuffer: Bank
    var writeOutBuffers: seq<Bank>
    var inFlight: seq<InFlight>
    var userBuffers: seq<Bank>
    var lostBuffers: seq<Bank>
    var overflowWrites: nat
    var written: seq<Message>        // history
    var flushed: seq<nat>            // history
    var flushedText: string          // history

    /** The target's state as a value. */
    ghost function View(): Target
      reads this
    {
      Target(numBanks, bankSize, delim, logCallbackSet, disabled, availBuffers, currentBuffer, writeOutBuffers,
             inFlight, userBuffers, lostBuffers, overflowWrites, written, flushed, flushedText)
    }

    constructor (owner: GreaseLogger, id: nat, numBanks: nat, bankSize: nat, delim: string)
      requires numBanks > 0
      ensures View() == NewTarget(numBanks, bankSize, delim) && TargetInv(View(), []) && this.owner == owner
      ensures myId == id
    {
      hide TargetInv;
      var avail, n := [], 1;
      while n < numBanks
        invariant 1 <= n <= numBanks && |avail| == n - 1
        invariant forall i :: 0 <= i < n - 1 ==> avail[i] == Bank(i + 1, "", [])
      {
        avail := avail + [Bank(n, "", [])];
        n := n + 1;
      }
      NewTargetInv(numBanks, bankSize, delim);
      assert avail == NewTarget(numBanks, bankSize, delim).avail;
      this.owner, myId, this.numBanks, this.bankSize, this.delim := owner, id, numBanks, bankSize, delim;
      disabled, logCallbackSet, currentBuffer, availBuffers := false, false, Bank(0, "", []), avail;
      writeOutBuffers, inFlight, userBuffers, lostBuffers := [], [], [], [];
      overflowWrites, written, flushed, flushedText := 0, [], [], "";
    }

    /** rotate: with conserved banks, it succeeds exactly when there is data and a bank to take over. */
    method Rotate(ghost queued: seq<Bank>) returns (ret: bool)
      modifies this
      ensures View() == RotateOf(old(View())).t && ret == RotateOf(old(View())).ok
      ensures old(Conserved(View(), queued)) ==> (ret <==> !old(currentBuffer).IsEmpty() && old(availBuffers) != [])
    {
      ret := false;
      if Conserved(View(), queued) { RotateFits(View(), queued); }
      if !currentBuffer.IsEmpty() {
        if availBuffers != [] {
          var next := availBuffers[0];
          availBuffers := availBuffers[1..];
          if |writeOutBuffers| < numBanks - 1 {
            writeOutBuffers := writeOutBuffers + [currentBuffer];
            currentBuffer := next;
            ret := true;
          } else {
            if |availBuffers| < numBanks {
              availBuffers := availBuffers + [next];
            } else {
              lostBuffers := lostBuffers + [next];
            }
            currentBuffer := currentBuffer.Cleared();
          }
        } else {
          currentBuffer := currentBuffer.Cleared();
        }
      }
    }

    /** The copies write makes into the current bank. */
    method CopyMessage(m: Message)
      modifies this
      ensures View() == CopyOf(old(View()), m)
    {
      var n := |written|;
      var b := currentBuffer.CopyIn(m.header, delim, false);
      b := b.CopyIn(m.text, delim, m.footer == "");
      if m.footer != "" {
        b := b.CopyIn(m.footer, delim, true);
      }
      currentBuffer := b.(msgs := currentBuffer.msgs + [n]);
      written := written + [m];
    }

    /** There is room for the whole line, delimiter included, or nothing to write. */
    ghost predicate FitsBank(b: Bank, m: Message) {
      || |m.header| + |m.text| + |m.footer| == 0
      || |b.text| + |m.header| + |m.text| + |m.footer| + |delim| <= bankSize
    }

    /** The request write leaves in the command queue: a huge message goes there whole, and a bank just
        rotated off asks to be flushed. */
    ghost function CommandOf(t: Target, m: Message, room: bool): Command
    {
      if t.disabled || !room then NoCommand
      else if Huge(t, m) then WriteTargetOverflow(myId, m.text)
      else if !FitsBank(t.current, m) && RotateOf(t).ok then TargetRotateBuffer(myId)
      else NoCommand
    }

    /** write: a message for a bank goes into the current one exactly when that has room for the whole line,
        else into the one rotated in, or nowhere; a reference is taken when an empty bank receives it. */
    method Write(m: Message, commandRoom: bool, ghost queued: seq<Bank>) returns (command: Command)
      requires TargetInv(View(), queued)
      modifies this, owner
      ensures View() == WriteOf(old(View()), m, commandRoom).t && TargetInv(View(), queued)
      ensures owner.needGreaseThread ==
              old(owner.needGreaseThread) + if WriteOf(old(View()), m, commandRoom).ref then 1 else 0
      ensures owner.callerLogCallbacks == old(owner.callerLogCallbacks)
      ensures command == CommandOf(old(View()), m, commandRoom)
      ensures old(disabled) || |m.text| + MAX_PREFIX > bankSize ==> View() == old(View())
      ensures !old(disabled) && |m.text| + MAX_PREFIX <= bankSize && FitsBank(old(currentBuffer), m) ==>
                && currentBuffer.text == old(currentBuffer.text) + Rendered(m, delim)
                && Kept(View()) == old(Kept(View()) + [|written|])
      ensures !old(disabled) && |m.text| + MAX_PREFIX <= bankSize && !FitsBank(old(currentBuffer), m)
              && |old(currentBuffer).text| > 0 && old(availBuffers) != [] && commandRoom ==>
                && currentBuffer.text == Rendered(m, delim) && writeOutBuffers == old(writeOutBuffers + [currentBuffer])
                && Kept(View()) == old(Kept(View()) + [|written|])
      ensures Weight(View()) - Weight(old(View())) <= owner.needGreaseThread - old(owner.needGreaseThread)
    {
      hide Conserved, Filled, InOrder, WholeLines, RotateOf, CopyOf, Weight, Kept, Rendered;
      WriteKeeps(View(), queued, m, commandRoom);
      if !disabled && |m.text| + MAX_PREFIX <= bankSize {
        MessageKept(View(), queued, m, commandRoom);
        FitsIff(View(), m);
      }
      command := NoCommand;
      if disabled { return; }
      if bankSize < |m.text| + MAX_PREFIX {
        if commandRoom { command := WriteTargetOverflow(myId, m.text); }
        return;
      }
      if currentBuffer.Remain(bankSize, delim) >= |m.text| + |m.header| + |m.footer| {
        if currentBuffer.IsEmpty() {
          owner.RefGreaseInGrease();
        }
        CopyMessage(m);
      } else {
        RotateSame(View());
        var rotated := Rotate(queued);
        if rotated && commandRoom {
          command := TargetRotateBuffer(myId);
          owner.RefGreaseInGrease();
          CopyMessage(m);
        } else {
          written := written + [m];
        }
      }
    }

    /** flushAll: rotates if asked to, then every queued bank goes to flush, in order. */
    method FlushAll(rotate: bool, nocallbacks: bool, ghost queued: seq<Bank>)
      requires TargetInv(View(), queued)
      modifies this
      ensures TargetInv(View(), queued) && writeOutBuffers == []
      ensures View() == FlushAllOf(if rotate then RotateOf(old(View())).t else old(View()), nocallbacks)
      ensures Kept(View()) == Kept(if rotate then RotateOf(old(View())).t else old(View()))
    {
      hide TargetInv, RotateOf, Weight, FlushAllOf, FlushOf, Kept;
      if rotate {
        RotateKeeps(View(), queued);
        var _ := Rotate(queued);
      }
      ghost var start := View();
      while writeOutBuffers != []
        invariant TargetInv(View(), queued)
        invariant FlushAllOf(View(), nocallbacks) == FlushAllOf(start, nocallbacks) && Kept(View()) == Kept(start)
        decreases |writeOutBuffers|
      {
        FlushKeeps(View(), queued, nocallbacks);
        FlushKept(View(), queued, nocallbacks);
        FlushThenAll(View(), nocallbacks);
        ghost var before := View();
        var b := writeOutBuffers[0];
        writeOutBuffers := writeOutBuffers[1..];
        inFlight := inFlight + [InFlight(b, nocallbacks)];
        flushed, flushedText := flushed + b.msgs, flushedText + b.text;
        assert View() == FlushOf(before, nocallbacks) by { FlushIs(before, nocallbacks); }
      }
      FlushNothing(View(), nocallbacks);
    }

    /** returnBuffer for the k-th write in flight: unreferenced, then queued for its callback or
        cleared and available again. */
    method ReturnBuffer(k: nat, ghost queued: seq<Bank>)
      requires TargetInv(View(), queued) && k < |inFlight| && owner.needGreaseThread >= Weight(View())
      modifies this, owner
      ensures View() == CompleteOf(old(View()), k, old(|owner.callerLogCallbacks| < CALLBACK_QUEUE)).t
      ensures owner.needGreaseThread == old(owner.needGreaseThread) - 1
      ensures var x := old(inFlight[k]);
              var queue := WantsCallback(old(View()), x) && old(|owner.callerLogCallbacks| < CALLBACK_QUEUE);
              && owner.callerLogCallbacks ==
                 old(owner.callerLogCallbacks) + (if queue then [BankItem(myId, x.bank)] else [])
              && TargetInv(View(), if queue then queued + [x.bank] else queued)
    {
      hide Conserved, Filled, InOrder, WholeLines;
      var x := inFlight[k];
      CompleteKeeps(View(), queued, k, |owner.callerLogCallbacks| < CALLBACK_QUEUE);
      if !x.bank.IsEmpty() {
        owner.UnrefGreaseInGrease();
      }
      inFlight := Without(inFlight, k);
      if !x.nocallback && logCallbackSet && !x.bank.IsEmpty() {
        var ok := owner.AddCallback(BankItem(myId, x.bank));
        if !ok {
          availBuffers := availBuffers + [x.bank.Cleared()];
        }
      } else {
        availBuffers := availBuffers + [x.bank.Cleared()];
      }
    }

    /** returnBufferToTarget, once the target is found, and finalizeV8Callback: always room. */
    method FinalizeCallback(k: nat, ghost queued: seq<Bank>) returns (ok: bool)
      requires TargetInv(View(), queued) && k < |userBuffers|
      modifies this
      ensures View() == ReturnOf(old(View()), k, true).t && TargetInv(View(), queued) && ok
    {
      hide Conserved, Filled, InOrder, WholeLines;
      ReturnKeeps(View(), queued, k, true);
      var b := userBuffers[k];
      userBuffers := Without(userBuffers, k);
      ok := |availBuffers| < numBanks;
      if ok { availBuffers := availBuffers + [b.Cleared()]; }
    }
  }

  lemma FlushIs(t: Target, nocallback: bool)
    requires t.out != []
    ensures var b := t.out[0];
            FlushOf(t, nocallback) == t.(out := t.out[1..], inFlight := t.inFlight + [InFlight(b, nocallback)],
                                      flushed := t.flushed + b.msgs, flushedText := t.flushedText + b.text)
  {
  }

  lemma FlushKept(t: Target, queued: seq<Bank>, nocallback: bool)
    requires t.out != [] && TargetInv(t, queued)
    ensures Kept(FlushOf(t, nocallback)) == Kept(t)
  {
    FlushOrders(t, nocallback);
  }

  lemma FlushNothing(t: Target, nocallback: bool)
    requires t.out == []
    ensures FlushAllOf(t, nocallback) == t
  {
  }

  /** Flushing the first bank and then the rest is flushing them all. */
  lemma FlushThenAll(t: Target, nocallback: bool)
    requires t.out != []
    ensures FlushAllOf(FlushOf(t, nocallback), nocallback) == FlushAllOf(t, nocallback)
  {
    hide MsgsOf, TextOf;
    var b, rest := t.out[0], t.out[1..];
    assert t.out == [b] + rest;
    MsgsOfAppend([b], rest);
    MsgsOfOne(b);
    assert (t.flushed + b.msgs) + MsgsOf(rest) == t.flushed + (b.msgs + MsgsOf(rest));
    assert (t.flushedText + b.text) + TextOf(rest) == t.flushedText + (b.text + TextOf(rest));
    assert FlushAllOf(FlushOf(t, nocallback), nocallback).inFlight == FlushAllOf(t, nocallback).inFlight;
  }
}
