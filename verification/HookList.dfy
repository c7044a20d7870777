/** Lists of malloc hooks: insertion and removal under a lock, traversal without it. */
module HookList {
  const CAPACITY: nat := 8
  const MAX_VALUES: nat := 7
  const SINGULAR: nat := 7

  /** The first of the normal slots that is 0, or MAX_VALUES. */
  function FirstZero(data: seq<nat>, from: nat): (i: nat)
    requires |data| == CAPACITY && from <= MAX_VALUES
    ensures from <= i <= MAX_VALUES && (forall j :: from <= j < i ==> data[j] != 0) && (i < MAX_VALUES ==> data[i] == 0)
    decreases MAX_VALUES - from
  {
    if from == MAX_VALUES || data[from] == 0 then from else FirstZero(data, from + 1)
  }

  /** The first slot before end that holds v, or end. */
  function FirstMatch(data: seq<nat>, end: nat, v: nat, from: nat): (i: nat)
    requires |data| == CAPACITY && from <= end <= CAPACITY
    ensures from <= i <= end && (forall j :: from <= j < i ==> data[j] != v) && (i < end ==> data[i] == v)
    decreases end - from
  {
    if from == end || data[from] == v then from else FirstMatch(data, end, v, from + 1)
  }

  /** end moved back over empty slots. */
  function Fixup(data: seq<nat>, end: nat): (e: nat)
    requires |data| == CAPACITY && end <= CAPACITY
    ensures e <= end && (e > 0 ==> data[e - 1] != 0) && forall j :: e <= j < end ==> data[j] == 0
  {
    if end > 0 && data[end - 1] == 0 then Fixup(data, end - 1) else end
  }

  /** end is one past the last hook. */
  ghost predicate EndInv(data: seq<nat>, end: nat) {
    && |data| == CAPACITY && end <= CAPACITY && (end > 0 ==> data[end - 1] != 0)
    && forall j :: end <= j < CAPACITY ==> data[j] == 0
  }

  /** The hooks in slot order. */
  function Hooks(data: seq<nat>): seq<nat> {
    if data == [] then [] else Hooks(data[..|data| - 1]) + if data[|data| - 1] != 0 then [data[|data| - 1]] else []
  }

  class HookList {
    const privData: array<nat>
    var privEnd: nat

    ghost predicate Valid()
      reads this, privData
    {
      privData.Length == CAPACITY && EndInv(privData[..], privEnd)
    }

    constructor ()
      ensures Valid() && fresh(privData) && Hooks(privData[..]) == []
    {
      privData := new nat[CAPACITY](_ => 0);
      privEnd := 0;
      new;
      NoHooks(privData[..]);
    }

    /** Add: the value goes into the first free normal slot. */
    method Add(value: nat) returns (ok: bool)
      requires Valid()
      modifies this, privData
      ensures Valid() && ok == (value != 0 && exists i :: 0 <= i < MAX_VALUES && old(privData[..])[i] == 0)
      ensures privData[..] == if ok then old(privData[..])[FirstZero(old(privData[..]), 0) := value]
              else old(privData[..])
      ensures privEnd == if ok && FirstZero(old(privData[..]), 0) >= old(privEnd) then
              FirstZero(old(privData[..]), 0) + 1 else old(privEnd)
    {
      if value == 0 { return false; }
      ghost var data := privData[..];
      var index := 0;
      while index < MAX_VALUES && privData[index] != 0
        invariant 0 <= index <= MAX_VALUES && FirstZero(data, 0) == FirstZero(data, index)
        invariant forall j :: 0 <= j < index ==> data[j] != 0
      {
        index := index + 1;
      }
      if index == MAX_VALUES { return false; }
      var prevNumHooks := privEnd;
      privData[index] := value;
      if prevNumHooks <= index {
        privEnd := index + 1;
      }
      return true;
    }

    /** FixupPrivEndLocked: end goes back to one past the last hook, whatever it was above that. */
    method FixupPrivEndLocked()
      requires privData.Length == CAPACITY && privEnd <= CAPACITY
      requires forall j :: privEnd <= j < CAPACITY ==> privData[j] == 0
      modifies this
      ensures Valid() && privEnd == Fixup(privData[..], old(privEnd))
    {
      var hooksEnd := privEnd;
      while hooksEnd > 0 && privData[hooksEnd - 1] == 0
        invariant 0 <= hooksEnd <= CAPACITY && Fixup(privData[..], hooksEnd) == Fixup(privData[..], old(privEnd))
        invariant forall j :: hooksEnd <= j < CAPACITY ==> privData[j] == 0
      {
        hooksEnd := hooksEnd - 1;
      }
      privEnd := hooksEnd;
    }

    /** Remove: the first slot that holds the value, the singular one included, becomes empty. */
    method Remove(value: nat) returns (ok: bool)
      requires Valid()
      modifies this, privData
      ensures Valid() && ok == (value != 0 && exists i :: 0 <= i < CAPACITY && old(privData[..])[i] == value)
      ensures privData[..] == if ok then
              old(privData[..])[FirstMatch(old(privData[..]), old(privEnd), value, 0) := 0] else old(privData[..])
    {
      if value == 0 { return false; }
      ghost var data := privData[..];
      var hooksEnd, index := privEnd, 0;
      while index < hooksEnd && value != privData[index]
        invariant 0 <= index <= hooksEnd
        invariant FirstMatch(data, hooksEnd, value, 0) == FirstMatch(data, hooksEnd, value, index)
        invariant forall j :: 0 <= j < index ==> data[j] != value
      {
        index := index + 1;
      }
      if index == hooksEnd { return false; }
      privData[index] := 0;
      FixupPrivEndLocked();
      return true;
    }

    /** ExchangeSingular: the last slot gets the value, and its old content is returned. */
    method ExchangeSingular(value: nat) returns (previous: nat)
      requires Valid()
      modifies this, privData
      ensures Valid() && previous == old(privData[SINGULAR]) && privData[..] == old(privData[..])[SINGULAR := value]
    {
      previous := privData[SINGULAR];
      privData[SINGULAR] := value;
      if value != 0 {
        privEnd := SINGULAR + 1;
      } else {
        FixupPrivEndLocked();
      }
    }

    /** Traverse with no writer about: the first n hooks. */
    method Traverse(n: nat) returns (output: seq<nat>)
      requires Valid()
      ensures output == Hooks(privData[..])[..if n < |Hooks(privData[..])| then n else |Hooks(privData[..])|]
    {
      ghost var data := privData[..];
      var hooksEnd, i := privEnd, 0;
      output := [];
      while i < hooksEnd && |output| < n
        invariant 0 <= i <= hooksEnd && |output| <= n && output == Hooks(data[..i])
      {
        assert data[..i + 1][..i] == data[..i];
        if privData[i] != 0 {
          output := output + [privData[i]];
        }
        i := i + 1;
      }
      HooksSplit(data, i);
      if i == hooksEnd { NoHooks(data[i..]); }
    }
  }

  lemma {:induction false} HooksSplit(data: seq<nat>, i: nat)
    requires i <= |data|
    ensures Hooks(data) == Hooks(data[..i]) + Hooks(data[i..])
  {
    if i == |data| {
      assert data[..i] == data;
    } else {
      var n := |data| - 1;
      HooksSplit(data[..n], i);
      assert data[..n][..i] == data[..i] && data[..n][i..] == data[i..][..|data[i..]| - 1];
    }
  }

  /** The slots, in rising order, are just those that are not 0, and the hooks are what they hold. */
  ghost predicate SlotsHold(data: seq<nat>, slots: seq<nat>, hooks: seq<nat>) {
    && |slots| == |hooks| && (forall i, j :: 0 <= i < j < |slots| ==> slots[i] < slots[j])
    && (forall k :: 0 <= k < |slots| ==> slots[k] < |data| && hooks[k] == data[slots[k]] != 0)
    && forall j: nat :: j < |data| && data[j] != 0 ==> j in slots
  }

  /** The hooks are the contents of the slots that are not 0, each slot once, in slot order. */
  lemma {:induction false} HooksAreSlots(data: seq<nat>) returns (slots: seq<nat>)
    ensures SlotsHold(data, slots, Hooks(data))
  {
    hide SlotsHold;
    if data == [] {
      slots := [];
      NoSlots();
    } else {
      var n := |data| - 1;
      slots := HooksAreSlots(data[..n]);
      NextSlot(data, slots, Hooks(data[..n]));
      if data[n] != 0 {
        slots := slots + [n];
      } else {
        assert Hooks(data[..n]) + [] == Hooks(data[..n]);
      }
    }
  }

  lemma NoSlots()
    ensures SlotsHold([], [], [])
  {
  }

  lemma NextSlot(data: seq<nat>, slots: seq<nat>, hooks: seq<nat>)
    requires data != [] && SlotsHold(data[..|data| - 1], slots, hooks)
    ensures var n := |data| - 1;
            if data[n] == 0 then SlotsHold(data, slots, hooks) else SlotsHold(data, slots + [n], hooks + [data[n]])
  {
    var n, front := |data| - 1, data[..|data| - 1];
    forall j: nat | j < |data| && data[j] != 0 ensures j in slots + [n] && (j < n ==> j in slots) {
      if j < n { assert front[j] != 0; }
    }
  }

  lemma {:induction false} NoHooks(data: seq<nat>)
    requires forall j :: 0 <= j < |data| ==> data[j] == 0
    ensures Hooks(data) == []
  {
    if data != [] { NoHooks(data[..|data| - 1]); }
  }

  lemma {:induction false} AllSlotsTaken(data: seq<nat>)
    ensures |Hooks(data)| <= |data| && (|Hooks(data)| == |data| <==> forall j :: 0 <= j < |data| ==> data[j] != 0)
    ensures |Hooks(data)| == |data| ==> Hooks(data) == data
  {
    if data != [] { AllSlotsTaken(data[..|data| - 1]); }
  }

  /** What a traversal with room for MAX_VALUES returns when no writer is about. */
  function Invoked(data: seq<nat>): seq<nat> {
    var hooks := Hooks(data);
    if |hooks| <= MAX_VALUES then hooks else hooks[..MAX_VALUES]
  }

  /** Invoking the hooks leaves one out exactly when all slots are taken; then all normal hooks are
      invoked and the singular one is not. */
  lemma SingularLeftOut(data: seq<nat>)
    requires |data| == CAPACITY
    ensures Invoked(data) == Hooks(data) <==> exists j :: 0 <= j < CAPACITY && data[j] == 0
    ensures (forall j :: 0 <= j < CAPACITY ==> data[j] != 0) ==>
            Invoked(data) == data[..SINGULAR] && Hooks(data) == data
  {
    AllSlotsTaken(data);
    if exists j :: 0 <= j < CAPACITY && data[j] == 0 {
      assert |Hooks(data)| < CAPACITY;
    } else {
      assert Hooks(data) == data;
      assert |Invoked(data)| == MAX_VALUES;
    }
  }
}
