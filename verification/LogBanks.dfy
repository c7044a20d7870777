/** One log target: a fixed set of banks going from available to current, write-out, in flight,
    callback and back, and the lines written into them. */
module LogBanks {
  const MAX_PREFIX: nat := 128

  /** A message with the header and footer its filter gives it. */
  datatype Message = Message(header: string, text: string, footer: string)

  /** A bank. `msgs` is history: the numbers of the messages copied in since it was last cleared. */
  datatype Bank = Bank(id: nat, text: string, msgs: seq<nat>) {
    function Cleared(): Bank { Bank(id, "", []) }
    predicate IsEmpty() { |text| == 0 }

    /** copyIn does nothing at all, not even the delimiter, when there is nothing to copy. */
    function CopyIn(s: string, delim: string, useDelim: bool): Bank {
      if |s| > 0 then this.(text := text + s + if useDelim then delim else "") else this
    }

    function Remain(space: nat, delim: string): nat {
      if |text| + |delim| <= space then space - |text| - |delim| else 0
    }

    /** The copies write makes, for the message numbered n. */
    function CopyLine(m: Message, delim: string, n: nat): Bank {
      var b := CopyIn(m.header, delim, false).CopyIn(m.text, delim, m.footer == "");
      var c := if m.footer == "" then b else b.CopyIn(m.footer, delim, true);
      c.(msgs := msgs + [n])
    }
  }

  datatype InFlight = InFlight(bank: Bank, nocallback: bool)

  /** The branches the source reports as errors. */
  datatype Failure = WriteOutFull | CannotPutBack | AvailFull | UnrefUnderflow

  /** A target. `written`, `flushed` and `flushedText` are history: the messages offered to the banks,
      and the numbers and bytes of those passed to flush. `dropped` holds banks nobody gave back. */
  datatype Target = Target(
    numBanks: nat, bankSize: nat, delim: string, callback: bool, disabled: bool,
    avail: seq<Bank>, current: Bank, out: seq<Bank>, inFlight: seq<InFlight>, user: seq<Bank>, dropped: seq<Bank>,
    overflow: nat, written: seq<Message>, flushed: seq<nat>, flushedText: string)

  /** What an operation does to its target and asks of the logger. */
  datatype Effect = Effect(t: Target, ok: bool, ref: bool, failures: set<Failure>)

  function NewTarget(numBanks: nat, bankSize: nat, delim: string): Target
    requires numBanks > 0
  {
    Target(numBanks, bankSize, delim, false, false, seq(numBanks - 1, i requires 0 <= i => Bank(i + 1, "", [])),
           Bank(0, "", []), [], [], [], [], 0, [], [], "")
  }

  /** rotate */
  function RotateOf(t: Target): (e: Effect) {
    if t.current.IsEmpty() then Effect(t, false, false, {})
    else if t.avail == [] then Effect(t.(current := t.current.Cleared()), false, false, {})
    else
      var next, avail := t.avail[0], t.avail[1..];
      if |t.out| < t.numBanks - 1 then
        Effect(t.(avail := avail, out := t.out + [t.current], current := next), true, false, {})
      else if |avail| < t.numBanks then
        Effect(t.(avail := avail + [next], current := t.current.Cleared()), false, false, {WriteOutFull})
      else
        Effect(t.(avail := avail, dropped := t.dropped + [next], current := t.current.Cleared()), false, false,
          {WriteOutFull, CannotPutBack})
  }

  predicate Huge(t: Target, m: Message) { t.bankSize < |m.text| + MAX_PREFIX }

  function CopyOf(t: Target, m: Message): Target {
    t.(current := t.current.CopyLine(m, t.delim, |t.written|), written := t.written + [m])
  }

  /** write, for a message short enough for a bank; room says whether the command queue has room. */
  function WriteOf(t: Target, m: Message, room: bool): (e: Effect) {
    if t.disabled || Huge(t, m) then Effect(t, false, false, {})
    else if t.current.Remain(t.bankSize, t.delim) >= |m.text| + |m.header| + |m.footer| then
      Effect(CopyOf(t, m), true, t.current.IsEmpty(), {})
    else
      var r := RotateOf(t);
      if r.ok && room then Effect(CopyOf(r.t, m), true, true, r.failures)
      else Effect(r.t.(written := t.written + [m]), false, false, r.failures)
  }

  /** The first queued bank goes to flush. */
  function FlushOf(t: Target, nocallback: bool): Target
    requires t.out != []
  {
    var b := t.out[0];
    t.(out := t.out[1..], inFlight := t.inFlight + [InFlight(b, nocallback)],
    flushed := t.flushed + b.msgs, flushedText := t.flushedText + b.text)
  }

  /** What flushAll does once it has rotated: every queued bank goes to flush, in order. */
  function FlushAllOf(t: Target, nocallback: bool): Target {
    t.(out := [], inFlight := t.inFlight + seq(|t.out|, i requires 0 <= i < |t.out| => InFlight(t.out[i], nocallback)),
    flushed := t.flushed + MsgsOf(t.out), flushedText := t.flushedText + TextOf(t.out))
  }

  /** A cleared bank goes back to the available ones. */
  function BackOf(t: Target, b: Bank): (e: Effect) {
    if |t.avail| < t.numBanks then Effect(t.(avail := t.avail + [b.Cleared()]), true, false, {})
    else Effect(t.(dropped := t.dropped + [b.Cleared()]), false, false, {AvailFull})
  }

  function Without<T>(xs: seq<T>, i: nat): seq<T>
    requires i < |xs|
  {
    xs[..i] + xs[i + 1..]
  }

  /** Whether returnBuffer queues the bank for the callback; otherwise it is cleared and available. */
  predicate WantsCallback(t: Target, x: InFlight) {
    !x.nocallback && t.callback && !x.bank.IsEmpty()
  }

  /** returnBuffer for the k-th write in flight; room says whether the callback queue has room. */
  function CompleteOf(t: Target, k: nat, room: bool): (e: Effect)
    requires k < |t.inFlight|
  {
    var t2 := t.(inFlight := Without(t.inFlight, k));
    if WantsCallback(t, t.inFlight[k]) && room then Effect(t2, true, false, {})
    else BackOf(t2, t.inFlight[k].bank)
  }

  /** returnBufferToTarget: only registered targets are found. */
  function ReturnOf(t: Target, k: nat, registered: bool): (e: Effect)
    requires k < |t.user|
  {
    var t2 := t.(user := Without(t.user, k));
    if registered then BackOf(t2, t.user[k]) else Effect(t2.(dropped := t.dropped + [t.user[k]]), true, false, {})
  }

  // Lines

  /** What a message leaves in a bank. */
  function Rendered(m: Message, delim: string): string {
    m.header + (if m.text == "" then "" else m.text + if m.footer == "" then delim else "") +
    (if m.footer == "" then "" else m.footer + delim)
  }

  function Line(m: Message, delim: string): string {
    m.header + m.text + m.footer + delim
  }

  /** The line is complete exactly when there is something for the delimiter to follow. */
  predicate EndsLine(m: Message, delim: string) {
    m.text != "" || m.footer != "" || delim == ""
  }

  lemma RenderedIsLine(m: Message, delim: string)
    ensures Rendered(m, delim) == Line(m, delim) <==> EndsLine(m, delim)
  {
    if !EndsLine(m, delim) {
      assert |Line(m, delim)| == |m.header| + |delim|;
    } else if m.footer == "" {
      assert Rendered(m, delim) == m.header + (m.text + delim);
    } else {
      assert m.text == "" ==> Rendered(m, delim) == m.header + (m.footer + delim);
    }
  }

  /** An empty message with no footer runs into the next one. */
  lemma EmptyMessageHasNoDelimiter()
    ensures Rendered(Message("a: ", "", ""), "\n") + Rendered(Message("b: ", "x", ""), "\n") == "a: b: x\n"
  {
    assert Rendered(Message("a: ", "", ""), "\n") == "a: ";
  }

  function RenderAll(msgs: seq<nat>, written: seq<Message>, delim: string): string {
    if msgs == [] then ""
    else RenderAll(msgs[..|msgs| - 1], written, delim) +
         (if msgs[|msgs| - 1] < |written| then Rendered(written[msgs[|msgs| - 1]], delim) else "")
  }

  function Lines(msgs: seq<nat>, written: seq<Message>, delim: string): string {
    if msgs == [] then ""
    else Lines(msgs[..|msgs| - 1], written, delim) +
         (if msgs[|msgs| - 1] < |written| then Line(written[msgs[|msgs| - 1]], delim) else "")
  }

  function MsgsOf(bs: seq<Bank>): seq<nat> {
    if bs == [] then [] else MsgsOf(bs[..|bs| - 1]) + bs[|bs| - 1].msgs
  }

  function TextOf(bs: seq<Bank>): string {
    if bs == [] then "" else TextOf(bs[..|bs| - 1]) + bs[|bs| - 1].text
  }

  ghost predicate Increasing(xs: seq<nat>) {
    forall i, j :: 0 <= i < j < |xs| ==> xs[i] < xs[j]
  }

  ghost predicate Below(xs: seq<nat>, n: nat) {
    forall i :: 0 <= i < |xs| ==> xs[i] < n
  }

  /** The messages that were not lost: passed to flush, queued, or in the current bank. */
  ghost function Kept(t: Target): seq<nat> {
    t.flushed + MsgsOf(t.out) + t.current.msgs
  }

  ghost function KeptText(t: Target): string {
    t.flushedText + TextOf(t.out) + t.current.text
  }

  lemma {:induction false} MsgsOfAppend(bs: seq<Bank>, cs: seq<Bank>)
    ensures MsgsOf(bs + cs) == MsgsOf(bs) + MsgsOf(cs) && TextOf(bs + cs) == TextOf(bs) + TextOf(cs)
  {
    if cs == [] {
      assert bs + cs == bs;
    } else {
      var front := cs[..|cs| - 1];
      assert (bs + cs)[..|bs + cs| - 1] == bs + front;
      MsgsOfAppend(bs, front);
      assert MsgsOf(bs) + (MsgsOf(front) + cs[|cs| - 1].msgs) == MsgsOf(bs) + MsgsOf(front) + cs[|cs| - 1].msgs;
      assert TextOf(bs) + (TextOf(front) + cs[|cs| - 1].text) == TextOf(bs) + TextOf(front) + cs[|cs| - 1].text;
    }
  }

  lemma MsgsOfOne(b: Bank)
    ensures MsgsOf([b]) == b.msgs && TextOf([b]) == b.text
  {
    assert [b][..0] == [];
  }

  lemma {:induction false} RenderAllAppend(xs: seq<nat>, ys: seq<nat>, written: seq<Message>, delim: string)
    ensures RenderAll(xs + ys, written, delim) == RenderAll(xs, written, delim) + RenderAll(ys, written, delim)
  {
    hide Rendered;
    if ys == [] {
      assert xs + ys == xs;
    } else {
      var front, k := ys[..|ys| - 1], ys[|ys| - 1];
      assert (xs + ys)[..|xs + ys| - 1] == xs + front;
      RenderAllAppend(xs, front, written, delim);
      var line := if k < |written| then Rendered(written[k], delim) else "";
      Associate(RenderAll(xs, written, delim), RenderAll(front, written, delim), line);
    }
  }

  lemma Associate(a: string, b: string, c: string)
    ensures (a + b) + c == a + (b + c)
  {
  }

  lemma {:induction false} RenderAllLater(xs: seq<nat>, written: seq<Message>, m: Message, delim: string)
    requires Below(xs, |written|)
    ensures RenderAll(xs, written + [m], delim) == RenderAll(xs, written, delim)
  {
    if xs != [] {
      RenderAllLater(xs[..|xs| - 1], written, m, delim);
    }
  }

  lemma {:induction false} RenderAllIsLines(xs: seq<nat>, written: seq<Message>, delim: string)
    requires forall i :: 0 <= i < |written| ==> EndsLine(written[i], delim)
    ensures RenderAll(xs, written, delim) == Lines(xs, written, delim)
  {
    if xs != [] {
      RenderAllIsLines(xs[..|xs| - 1], written, delim);
      var k := xs[|xs| - 1];
      if k < |written| { RenderedIsLine(written[k], delim); }
    }
  }

  /** A bank holds whole rendered messages, within its space when prefixes keep within the limit. */
  ghost predicate BankLines(b: Bank, written: seq<Message>, delim: string, bankSize: nat) {
    && Below(b.msgs, |written|) && b.text == RenderAll(b.msgs, written, delim)
    && (PrefixesFit(written, delim) ==> |b.text| <= bankSize)
  }

  ghost predicate PrefixesFit(written: seq<Message>, delim: string) {
    forall i :: 0 <= i < |written| ==> |written[i].header| + |written[i].footer| + |delim| <= MAX_PREFIX
  }

  ghost predicate AllLines(bs: seq<Bank>, written: seq<Message>, delim: string, bankSize: nat) {
    forall i :: 0 <= i < |bs| ==> BankLines(bs[i], written, delim, bankSize)
  }

  lemma CopyIsRendered(b: Bank, m: Message, delim: string, n: nat)
    ensures b.CopyLine(m, delim, n) == Bank(b.id, b.text + Rendered(m, delim), b.msgs + [n])
  {
    var b1 := b.CopyIn(m.header, delim, false);
    assert b1.text == b.text + m.header;
    var b2 := b1.CopyIn(m.text, delim, m.footer == "");
    var mid := if m.text == "" then "" else m.text + if m.footer == "" then delim else "";
    assert b2.text == b.text + m.header + mid;
    var end := if m.footer == "" then "" else m.footer + delim;
    assert b.CopyLine(m, delim, n).text == b.text + m.header + mid + end;
    assert b.text + m.header + mid + end == b.text + (m.header + mid + end);
  }

  lemma LaterLines(b: Bank, written: seq<Message>, m: Message, delim: string, bankSize: nat)
    requires BankLines(b, written, delim, bankSize)
    ensures BankLines(b, written + [m], delim, bankSize)
  {
    RenderAllLater(b.msgs, written, m, delim);
    if PrefixesFit(written + [m], delim) {
      forall i | 0 <= i < |written| ensures |written[i].header| + |written[i].footer| + |delim| <= MAX_PREFIX {
        assert (written + [m])[i] == written[i];
      }
    }
  }

  /** Copying a message into a bank with room keeps it a bank of whole messages within its space. */
  lemma CopyKeepsLines(b: Bank, written: seq<Message>, m: Message, delim: string, bankSize: nat)
    requires BankLines(b, written, delim, bankSize)
    requires PrefixesFit(written + [m], delim) ==> |b.text| + |Rendered(m, delim)| <= bankSize
    ensures BankLines(b.CopyLine(m, delim, |written|), written + [m], delim, bankSize)
  {
    hide BankLines, PrefixesFit;
    CopyIsRendered(b, m, delim, |written|);
    LaterLines(b, written, m, delim, bankSize);
    AppendLine(b, written + [m], delim, bankSize, |written|);
  }

  lemma AppendLine(b: Bank, written: seq<Message>, delim: string, bankSize: nat, n: nat)
    requires BankLines(b, written, delim, bankSize) && n < |written|
    requires PrefixesFit(written, delim) ==> |b.text| + |Rendered(written[n], delim)| <= bankSize
    ensures BankLines(Bank(b.id, b.text + Rendered(written[n], delim), b.msgs + [n]), written, delim, bankSize)
  {
    hide Rendered;
    assert (b.msgs + [n])[..|b.msgs|] == b.msgs;
  }

  lemma RenderedSize(m: Message, delim: string)
    ensures |Rendered(m, delim)| <= |m.header| + |m.text| + |m.footer| + |delim|
    ensures |m.header| + |m.text| + |m.footer| == 0 ==> Rendered(m, delim) == ""
  {
  }

  /** Given room for the rendered message, no copy meets the length assertion of copyIn or its branch for
      an over-full bank, and none writes past the space. */
  lemma CopiesStayInside(b: Bank, m: Message, delim: string, space: nat)
    requires |b.text| + |Rendered(m, delim)| <= space
    ensures var b1 := b.CopyIn(m.header, delim, false);
            var b2 := b1.CopyIn(m.text, delim, m.footer == "");
            && |m.header| <= space && |m.text| <= space && |m.footer| <= space
            && |b.text| <= space && |b1.text| <= space && |b2.text| <= space
            && |b.CopyLine(m, delim, 0).text| <= space
  {
    CopyIsRendered(b, m, delim, 0);
  }

  /** A bank just rotated in takes any message that is not huge, exactly when its prefix fits the
      space left beside the text. */
  lemma FreshBankFits(m: Message, delim: string, bankSize: nat)
    ensures bankSize >= |m.text| + MAX_PREFIX && |m.header| + |m.footer| + |delim| <= MAX_PREFIX ==>
            |Rendered(m, delim)| <= bankSize
    ensures EndsLine(m, delim) ==>
              (|Rendered(m, delim)| <= bankSize <==> |m.header| + |m.footer| + |delim| <= bankSize - |m.text|)
  {
    RenderedIsLine(m, delim);
  }

  // Invariants of one target, with the banks `queued` for it in the callback queue

  ghost function BanksInFlight(xs: seq<InFlight>): seq<Bank> {
    seq(|xs|, i requires 0 <= i < |xs| => xs[i].bank)
  }

  ghost function Ids(bs: seq<Bank>): multiset<nat> {
    multiset(seq(|bs|, i requires 0 <= i < |bs| => bs[i].id))
  }

  ghost function AllIds(n: nat): multiset<nat> {
    multiset(seq(n, i requires 0 <= i => i))
  }

  /** Every place a bank can be. */
  ghost function Held(t: Target, queued: seq<Bank>): seq<Bank> {
    t.avail + [t.current] + t.out + BanksInFlight(t.inFlight) + queued + t.user + t.dropped
  }

  /** Each of the target's banks is in one place, once. */
  ghost predicate Conserved(t: Target, queued: seq<Bank>) {
    Ids(Held(t, queued)) == AllIds(t.numBanks)
  }

  /** Only available banks are empty; what is queued or in flight has data. */
  ghost predicate Filled(t: Target) {
    && (forall i :: 0 <= i < |t.avail| ==> t.avail[i].IsEmpty() && t.avail[i].msgs == [])
    && (forall i :: 0 <= i < |t.out| ==> !t.out[i].IsEmpty())
    && (forall i :: 0 <= i < |t.inFlight| ==> !t.inFlight[i].bank.IsEmpty())
  }

  ghost predicate InOrder(t: Target) {
    Increasing(Kept(t)) && Below(Kept(t), |t.written|)
  }

  ghost predicate WholeLines(t: Target, queued: seq<Bank>) {
    && BankLines(t.current, t.written, t.delim, t.bankSize) && AllLines(t.out, t.written, t.delim, t.bankSize)
    && AllLines(BanksInFlight(t.inFlight), t.written, t.delim, t.bankSize)
    && AllLines(queued, t.written, t.delim, t.bankSize) && AllLines(t.user, t.written, t.delim, t.bankSize)
    && t.flushedText == RenderAll(t.flushed, t.written, t.delim) && Below(t.flushed, |t.written|)
  }

  lemma IdsJoin(a: seq<Bank>, b: seq<Bank>)
    ensures Ids(a + b) == Ids(a) + Ids(b)
  {
    var f := (bs: seq<Bank>) => seq(|bs|, i requires 0 <= i < |bs| => bs[i].id);
    assert f(a + b) == f(a) + f(b);
  }

  lemma IdsOne(b: Bank)
    ensures Ids([b]) == multiset{b.id}
  {
    assert seq(1, i requires 0 <= i < 1 => [b][i].id) == [b.id];
  }

  /** Held, place by place. */
  lemma HeldIds(t: Target, queued: seq<Bank>)
    ensures Ids(Held(t, queued)) == Ids(t.avail) + multiset{t.current.id} + Ids(t.out) + Ids(BanksInFlight(t.inFlight))
                                    + Ids(queued) + Ids(t.user) + Ids(t.dropped)
    ensures |Ids(Held(t, queued))| == |t.avail| + 1 + |t.out| + |t.inFlight| + |queued| + |t.user| + |t.dropped|
  {
    hide Ids;
    var a := t.avail + [t.current];
    IdsOne(t.current);
    IdsJoin(t.avail, [t.current]);
    IdsJoin(a, t.out);
    IdsJoin(a + t.out, BanksInFlight(t.inFlight));
    IdsJoin(a + t.out + BanksInFlight(t.inFlight), queued);
    IdsJoin(a + t.out + BanksInFlight(t.inFlight) + queued, t.user);
    IdsJoin(a + t.out + BanksInFlight(t.inFlight) + queued + t.user, t.dropped);
    IdsSize(Held(t, queued));
  }

  lemma IdsSize(bs: seq<Bank>)
    ensures |Ids(bs)| == |bs|
  {
  }

  /** Exactly numBanks banks are held, so no queue can be full when a bank is offered to it. */
  lemma Capacity(t: Target, queued: seq<Bank>)
    requires Conserved(t, queued)
    ensures |t.avail| + 1 + |t.out| + |t.inFlight| + |queued| + |t.user| + |t.dropped| == t.numBanks
  {
    hide Ids, Held;
    HeldIds(t, queued);
  }
}
