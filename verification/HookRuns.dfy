/** Traversals of a hook list while other threads add and remove hooks: every interleaving of their
    loads and stores. */
module HookRuns {
  import opened HookList

  /** The lock holder between its two stores: the slot has been written, end not yet. `adding` is the
      slot that Add filled. */
  datatype Writer = NoWriter | Ending(newEnd: nat, adding: int)

  const NO_SLOT: int := -1

  /** A traversal with room for MAX_VALUES values. History: `slots` are those the output came from,
      `stable` the normal hooks that were in the list when the traversal started and that no store has
      touched since, `added` the slots of those whose Add had returned by then, `seen` all values in
      the list since then. */
  datatype Traversal = Traversal(hooksEnd: nat, i: nat, output: seq<nat>, slots: seq<nat>,
                                 stable: map<nat, nat>, added: set<nat>, seen: set<nat>)

  datatype State = State(data: seq<nat>, end: nat, writer: Writer, traversals: seq<Traversal>)

  datatype Event =
    | AddStore(v: nat)
    | RemoveStore(v: nat)
    | ExchangeStore(v: nat)
    | EndStore
    | TraverseStart
    | TraverseRead(t: nat)

  /** What a store of v to a slot does to a traversal's history. */
  function Touched(tr: Traversal, slot: nat, v: nat): Traversal {
    tr.(stable := tr.stable - {slot}, seen := if v == 0 then tr.seen else tr.seen + {v})
  }

  function Store(s: State, slot: nat, v: nat, w: Writer): State
    requires slot < |s.data|
  {
    s.(data := s.data[slot := v], writer := w,
    traversals := seq(|s.traversals|, t requires 0 <= t < |s.traversals| => Touched(s.traversals[t], slot, v)))
  }

  ghost function StableNow(s: State): map<nat, nat> {
    map i | 0 <= i < MAX_VALUES && i < |s.data| && s.data[i] != 0 :: s.data[i]
  }

  ghost function AddedNow(s: State): set<nat> {
    set i | 0 <= i < MAX_VALUES && i < |s.data| && s.data[i] != 0 && !(s.writer.Ending? && s.writer.adding == i)
  }

  ghost function SeenNow(s: State): set<nat> {
    set i | 0 <= i < |s.data| && s.data[i] != 0 :: s.data[i]
  }

  predicate Going(tr: Traversal) {
    tr.i < tr.hooksEnd && |tr.output| < MAX_VALUES
  }

  function ReadOf(s: State, tr: Traversal): Traversal {
    if tr.i < |s.data| && s.data[tr.i] != 0 then
      tr.(i := tr.i + 1, output := tr.output + [s.data[tr.i]], slots := tr.slots + [tr.i])
    else tr.(i := tr.i + 1)
  }

  /** One step; an event that does not apply changes nothing, as a call that fails does. */
  ghost function Apply(s: State, e: Event): State
    requires |s.data| == CAPACITY && s.end <= CAPACITY
  {
    match e
    case AddStore(v) =>
      var i := FirstZero(s.data, 0);
      if s.writer == NoWriter && v != 0 && i < MAX_VALUES then
        Store(s, i, v, Ending(if s.end <= i then i + 1 else s.end, i)) else s
    case RemoveStore(v) =>
      var i := FirstMatch(s.data, s.end, v, 0);
      if s.writer == NoWriter && v != 0 && i < s.end then
        Store(s, i, 0, Ending(Fixup(s.data[i := 0], s.end), NO_SLOT)) else s
    case ExchangeStore(v) =>
      if s.writer != NoWriter then s
      else Store(s, SINGULAR, v, Ending(if v != 0 then SINGULAR + 1 else Fixup(s.data[SINGULAR := v], s.end),
        if v != 0 then SINGULAR else NO_SLOT))
    case EndStore => if s.writer.Ending? then s.(end := s.writer.newEnd, writer := NoWriter) else s
    case TraverseStart =>
      s.(traversals := s.traversals + [Traversal(s.end, 0, [], [], StableNow(s), AddedNow(s), SeenNow(s))])
    case TraverseRead(t) =>
      if t < |s.traversals| && Going(s.traversals[t]) then
        s.(traversals := s.traversals[t := ReadOf(s, s.traversals[t])])
      else s
  }

  ghost predicate Runs(s: State, es: seq<Event>, s2: State) {
    if es == [] then s2 == s
    else exists m :: Runs(s, es[..|es| - 1], m) && Sized(m) && s2 == Apply(m, es[|es| - 1])
  }

  ghost predicate Sized(s: State) { |s.data| == CAPACITY && s.end <= CAPACITY }

  ghost predicate Initial(s: State) {
    s.data == seq(CAPACITY, _ => 0) && s.end == 0 && s.writer == NoWriter && s.traversals == []
  }

  /** With the lock free, end is one past the last hook; between the two stores that is what end is
      about to become, and only a hook being added may lie beyond end. */
  ghost predicate ListInv(s: State) {
    && Sized(s) && (s.writer == NoWriter ==> EndInv(s.data, s.end))
    && (s.writer.Ending? ==>
       EndInv(s.data, s.writer.newEnd) && forall j :: s.end <= j < CAPACITY && j != s.writer.adding ==> s.data[j] == 0)
  }

  /** The output so far: one value per slot read, in slot order, all seen; every stable hook in a slot
      already read is in it. */
  ghost predicate TraversalInv(tr: Traversal, data: seq<nat>) {
    && |tr.output| == |tr.slots| <= tr.i && tr.i <= CAPACITY && tr.hooksEnd <= CAPACITY && |tr.output| <= MAX_VALUES
    && (forall k :: 0 <= k < |tr.slots| ==> tr.slots[k] < tr.i)
    && (forall j, k :: 0 <= j < k < |tr.slots| ==> tr.slots[j] < tr.slots[k])
    && (forall k :: 0 <= k < |tr.output| ==> tr.output[k] in tr.seen)
    && (forall i :: 0 <= i < |data| && data[i] != 0 ==> data[i] in tr.seen)
    && (forall i :: i in tr.stable ==> StableAt(tr, data, i))
    && (forall i :: i in tr.added ==> i < tr.hooksEnd)
    && (forall k :: 0 <= k < |tr.slots| ==> tr.slots[k] < tr.hooksEnd)
  }

  ghost predicate StableAt(tr: Traversal, data: seq<nat>, i: nat)
    requires i in tr.stable && |tr.output| == |tr.slots|
  {
    && i < MAX_VALUES && i < |data| && data[i] == tr.stable[i] != 0
    && (i < tr.i ==> exists k :: 0 <= k < |tr.slots| && tr.slots[k] == i && tr.output[k] == tr.stable[i])
  }

  ghost predicate Inv(s: State) {
    ListInv(s) && forall t :: 0 <= t < |s.traversals| ==> TraversalInv(s.traversals[t], s.data)
  }

  lemma StoreTraversal(tr: Traversal, data: seq<nat>, slot: nat, v: nat)
    requires TraversalInv(tr, data) && slot < |data|
    ensures TraversalInv(Touched(tr, slot, v), data[slot := v])
  {
    var tr2 := Touched(tr, slot, v);
    forall i | i in tr2.stable ensures StableAt(tr2, data[slot := v], i) {
      assert StableAt(tr, data, i);
    }
  }

  lemma StoreInv(s: State, slot: nat, v: nat, w: Writer)
    requires Inv(s) && slot < |s.data| && w.Ending? && EndInv(s.data[slot := v], w.newEnd)
    requires var d := s.data[slot := v]; forall j :: s.end <= j < CAPACITY && j != w.adding ==> d[j] == 0
    ensures Inv(Store(s, slot, v, w))
  {
    hide TraversalInv, Touched;
    forall t | 0 <= t < |s.traversals| ensures TraversalInv(Touched(s.traversals[t], slot, v), s.data[slot := v]) {
      StoreTraversal(s.traversals[t], s.data, slot, v);
    }
  }

  lemma StartInv(s: State)
    requires ListInv(s)
    ensures TraversalInv(Traversal(s.end, 0, [], [], StableNow(s), AddedNow(s), SeenNow(s)), s.data)
  {
  }

  lemma ReadInv(s: State, tr: Traversal)
    requires Sized(s) && TraversalInv(tr, s.data) && Going(tr)
    ensures TraversalInv(ReadOf(s, tr), s.data)
  {
    var tr2 := ReadOf(s, tr);
    forall i | i in tr2.stable ensures StableAt(tr2, s.data, i) {
      assert StableAt(tr, s.data, i);
      if i < tr.i {
        var k :| 0 <= k < |tr.slots| && tr.slots[k] == i && tr.output[k] == tr.stable[i];
        assert tr2.slots[k] == i && tr2.output[k] == tr.stable[i];
      } else if i == tr.i {
        assert tr2.slots[|tr.slots|] == i;
      }
    }
  }

  lemma StepInv(s: State, e: Event)
    requires Inv(s)
    ensures Inv(Apply(s, e))
  {
    hide TraversalInv, Store, ReadOf, StableNow, AddedNow, SeenNow;
    match e
    case AddStore(v) =>
      var i := FirstZero(s.data, 0);
      if s.writer == NoWriter && v != 0 && i < MAX_VALUES {
        StoreInv(s, i, v, Ending(if s.end <= i then i + 1 else s.end, i));
      }
    case RemoveStore(v) =>
      var i := FirstMatch(s.data, s.end, v, 0);
      if s.writer == NoWriter && v != 0 && i < s.end {
        StoreInv(s, i, 0, Ending(Fixup(s.data[i := 0], s.end), NO_SLOT));
      }
    case ExchangeStore(v) =>
      if s.writer == NoWriter {
        StoreInv(s, SINGULAR, v, Ending(if v != 0 then SINGULAR + 1 else Fixup(s.data[SINGULAR := v], s.end),
          if v != 0 then SINGULAR else NO_SLOT));
      }
    case EndStore =>
    case TraverseStart => StartInv(s);
    case TraverseRead(t) => if t < |s.traversals| && Going(s.traversals[t]) { ReadInv(s, s.traversals[t]); }
  }

  lemma {:induction false} RunInv(s: State, es: seq<Event>, s2: State)
    requires Initial(s) && Runs(s, es, s2)
    ensures Inv(s2)
  {
    hide Apply, ListInv, TraversalInv;
    if es == [] {
      InitialInv(s);
    } else {
      var m :| Runs(s, es[..|es| - 1], m) && Sized(m) && s2 == Apply(m, es[|es| - 1]);
      RunInv(s, es[..|es| - 1], m);
      StepInv(m, es[|es| - 1]);
    }
  }

  lemma InitialInv(s: State)
    requires Initial(s)
    ensures Inv(s)
  {
  }

  /** Whenever the lock is free, end is one past the last hook. */
  lemma EndIsExact(s: State, es: seq<Event>, s2: State)
    requires Initial(s) && Runs(s, es, s2) && s2.writer == NoWriter
    ensures EndInv(s2.data, s2.end)
  {
    hide Runs;
    RunInv(s, es, s2);
  }

  /** The traversal has read the slot, as the k-th value it returns. */
  ghost predicate Returned(tr: Traversal, i: nat, k: nat) {
    k < |tr.slots| && k < |tr.output| && i in tr.stable && tr.slots[k] == i && tr.output[k] == tr.stable[i]
  }

  /** A finished traversal returned, of the normal hooks that stayed all the while, exactly those in
      slots below the end it read when it started, which has every hook whose Add had returned by then;
      each once and in slot order, and only values that were in the list. */
  lemma TraversalIsComplete(s: State, es: seq<Event>, s2: State, t: nat)
    requires Initial(s) && Runs(s, es, s2) && t < |s2.traversals| && !Going(s2.traversals[t])
    ensures var tr := s2.traversals[t];
            && (forall i :: i in tr.stable ==> (i in tr.slots <==> i < tr.hooksEnd))
            && (forall i :: i in tr.stable && i < tr.hooksEnd ==> exists k :: Returned(tr, i, k))
            && (forall i :: i in tr.added ==> i < tr.hooksEnd)
            && (forall v :: v in tr.output ==> v in tr.seen)
            && |tr.output| == |tr.slots| <= MAX_VALUES
            && forall j, k :: 0 <= j < k < |tr.slots| ==> tr.slots[j] < tr.slots[k]
  {
    hide Runs, ListInv;
    RunInv(s, es, s2);
    var tr := s2.traversals[t];
    assert TraversalInv(tr, s2.data);
    forall i | i in tr.stable && i < tr.hooksEnd ensures i in tr.slots && exists k :: Returned(tr, i, k) {
      assert StableAt(tr, s2.data, i);
      var k :| 0 <= k < |tr.slots| && tr.slots[k] == i && tr.output[k] == tr.stable[i];
      assert Returned(tr, i, k);
    }
  }

  /** A hook whose Add is between its two stores can be in its slot all the while and be missed. */
  lemma HookBeingAddedIsMissed(s: State, v: nat)
    requires Initial(s) && v != 0
    ensures var s1 := Apply(s, AddStore(v));
            && Sized(s1)
            && var s2 := Apply(s1, TraverseStart);
               && Runs(s, [AddStore(v), TraverseStart], s2) && |s2.traversals| == 1 && !Going(s2.traversals[0])
               && s2.traversals[0].stable == map[0 := v] && s2.traversals[0].output == []
  {
    var s1 := Apply(s, AddStore(v));
    assert FirstZero(s.data, 0) == 0;
    assert s1.data[0] == v && s1.end == 0;
    RunsTwice(s, AddStore(v), TraverseStart);
  }

  lemma RunsTwice(s: State, e: Event, f: Event)
    requires Sized(s) && Sized(Apply(s, e))
    ensures Runs(s, [e, f], Apply(Apply(s, e), f))
  {
    hide Apply;
    assert [e][..0] == [] && [e, f][..1] == [e];
    assert Runs(s, [], s);
    assert Runs(s, [e], Apply(s, e));
  }

  /** Both stores of a writer that nobody overtakes. */
  ghost function Written(s: State, e: Event): State
    requires Inv(s)
  {
    StepInv(s, e);
    Apply(Apply(s, e), EndStore)
  }

  /** The same two stores as the locked method: Add has put the value into the first free normal slot, or
      there was none and nothing is changed. */
  lemma AddIsTwoStores(s: State, v: nat)
    requires Inv(s) && s.writer == NoWriter
    ensures var s2 := Written(s, AddStore(v));
            && EndInv(s2.data, s2.end) && s2.writer == NoWriter
            && if v != 0 && exists j :: 0 <= j < 7 && s.data[j] == 0 then
                 exists i :: 0 <= i < 7 && s.data[i] == 0 && (forall j :: 0 <= j < i ==> s.data[j] != 0) &&
                   s2.data == s.data[i := v]
               else s2 == s
  {
    hide TraversalInv;
    StepInv(s, AddStore(v));
    StepInv(Apply(s, AddStore(v)), EndStore);
    var i := FirstZero(s.data, 0);
    assert i < 7 ==> s.data[i] == 0;
  }

  /** Remove has emptied the first slot that held the value, the singular one included, or there was none and
      nothing is changed. */
  lemma RemoveIsTwoStores(s: State, v: nat)
    requires Inv(s) && s.writer == NoWriter
    ensures var s2 := Written(s, RemoveStore(v));
            && EndInv(s2.data, s2.end) && s2.writer == NoWriter
            && if v != 0 && v in s.data then
                 exists i :: 0 <= i < 8 && s.data[i] == v && (forall j :: 0 <= j < i ==> s.data[j] != v) &&
                   s2.data == s.data[i := 0]
               else s2 == s
  {
    hide TraversalInv;
    StepInv(s, RemoveStore(v));
    StepInv(Apply(s, RemoveStore(v)), EndStore);
    var i := FirstMatch(s.data, s.end, v, 0);
    assert i < s.end ==> s.data[i] == v;
  }

  /** ExchangeSingular has put the value into the last slot. */
  lemma ExchangeIsTwoStores(s: State, v: nat)
    requires Inv(s) && s.writer == NoWriter
    ensures var s2 := Written(s, ExchangeStore(v));
            EndInv(s2.data, s2.end) && s2.writer == NoWriter && s2.data == s.data[7 := v]
  {
    hide TraversalInv;
    StepInv(s, ExchangeStore(v));
    StepInv(Apply(s, ExchangeStore(v)), EndStore);
  }
}
