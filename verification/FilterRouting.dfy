/** Level masks and their bits. */
module LevelMasks {
  predicate Meets(mask: bv32, level: bv32) { mask & level != 0 }

  function Union(a: bv32, b: bv32): bv32 { a | b }

  lemma OrMeetsBits(a: bv32, b: bv32, level: bv32)
    ensures (a | b) & level != 0 <==> a & level != 0 || b & level != 0
  {
  }

  lemma OrMeets(a: bv32, b: bv32, level: bv32)
    ensures Meets(Union(a, b), level) <==> Meets(a, level) || Meets(b, level)
  {
    hide Meets;
    BarMeets(a, b, level);
  }

  lemma BarMeets(a: bv32, b: bv32, level: bv32)
    ensures Meets(a | b, level) <==> Meets(a, level) || Meets(b, level)
  {
    OrMeetsBits(a, b, level);
  }

  /** The mask has the level: some bit is in both. */
  lemma MeetsIs(level: bv32)
    ensures forall mask :: Meets(mask, level) <==> mask & level != 0
  {
  }

  lemma MeetsOne(mask: bv32, level: bv32)
    ensures Meets(mask, level) <==> mask & level != 0
  {
  }

  lemma ZeroMeets(level: bv32)
    ensures !Meets(0, level)
  {
  }
}

/** Filters and the routing of a message: hashed filter lists with a level bloom, against a plain scan
    of the rules in the order they were added. */
module FilterRouting {
  import opened Basics
  import opened LevelMasks

  const LIST_SIZE: nat := 16
  const IGNORE_SIZE: nat := 10
  const ORIGIN_BITS: bv64 := 0xFFFF_FFFF_0000_0000
  const TAG_BITS: bv64 := 0x0000_0000_FFFF_FFFF

  /** A filter; id 0 means an empty slot. */
  datatype Filter = Filter(disabled: bool, id: nat, levelMask: bv32, targetId: nat)

  datatype FilterList = FilterList(list: seq<Filter>, bloom: bv32)

  /** Fresh metadata: nothing cached yet. */
  datatype Meta = Meta(tag: bv32, level: bv32, origin: bv32, extras: bool, ignoreList: seq<nat>)

  datatype Options = Options(levelFilterOutMask: bv32, defaultFilterOut: bool)

  /** A write to the default target or to a registered one, formatted by the filter with this id; the
      default filter has id 0. */
  datatype Output = ToDefault(filterId: nat) | ToTarget(target: nat, filterId: nat)

  // Hashes

  function FilterHash(tag: bv32, origin: bv32): bv64 {
    (ORIGIN_BITS & ((origin as bv64) << 32)) | (tag as bv64)
  }

  /** Masking the combined hash gives the hash of the origin alone and of the tag alone, and the
      combined hash determines both. */
  lemma HashParts(tag: bv32, origin: bv32)
    ensures FilterHash(tag, origin) & ORIGIN_BITS == FilterHash(0, origin)
    ensures FilterHash(tag, origin) & TAG_BITS == FilterHash(tag, 0)
    ensures FilterHash(0, 0) == 0
  {
  }

  lemma HashTag(tag: bv32, origin: bv32)
    ensures FilterHash(tag, origin) & TAG_BITS == tag as bv64
  {
  }

  lemma HashOrigin(tag: bv32, origin: bv32)
    ensures FilterHash(tag, origin) >> 32 == origin as bv64
  {
  }

  lemma Widen(a: bv32, b: bv32)
    requires a as bv64 == b as bv64
    ensures a == b
  {
  }

  lemma HashInjective(tag: bv32, origin: bv32, tag2: bv32, origin2: bv32)
    requires FilterHash(tag, origin) == FilterHash(tag2, origin2)
    ensures tag == tag2 && origin == origin2
  {
    hide FilterHash;
    HashTag(tag, origin);
    HashTag(tag2, origin2);
    HashOrigin(tag, origin);
    HashOrigin(tag2, origin2);
    Widen(tag, tag2);
    Widen(origin, origin2);
  }

  // The rules, as plain data

  datatype Key = Key(origin: bv32, tag: bv32)

  datatype Rule = Rule(key: Key, filter: Filter)

  /** What a message can be written to: the options, the registered targets, and whether there is a
      default target. */
  datatype Env = Env(opts: Options, targets: set<nat>, hasDefault: bool)

  ghost function FiltersFor(rules: seq<Rule>, k: Key): seq<Filter> {
    if rules == [] then []
    else
      var r := rules[|rules| - 1];
      FiltersFor(rules[..|rules| - 1], k) + if r.key == k then [r.filter] else []
  }

  /** The most specific key that has rules: origin and tag, origin alone, tag alone, none. */
  ghost function BestKey(rules: seq<Rule>, m: Meta): Option<Key> {
    if FiltersFor(rules, Key(m.origin, m.tag)) != [] then Some(Key(m.origin, m.tag))
    else if FiltersFor(rules, Key(m.origin, 0)) != [] then Some(Key(m.origin, 0))
    else if FiltersFor(rules, Key(0, m.tag)) != [] then Some(Key(0, m.tag))
    else if FiltersFor(rules, Key(0, 0)) != [] then Some(Key(0, 0))
    else None
  }

  /** The message's ignore list, which ends at the first 0, names the target. */
  ghost predicate Ignored(m: Meta, target: nat)
    requires m.extras ==> |m.ignoreList| > IGNORE_SIZE
  {
    && m.extras
    && exists x :: 0 <= x < 10 && m.ignoreList[x] == target && forall y :: 0 <= y <= x ==> m.ignoreList[y] != 0
  }

  ghost predicate WellFormed(m: Meta) { m.extras ==> |m.ignoreList| > IGNORE_SIZE }

  predicate Matches(f: Filter, level: bv32) {
    Meets(f.levelMask, level) && !f.disabled
  }

  /** The filter counts as having written, even when it names a default target that is not there. */
  ghost predicate Takes(f: Filter, m: Meta, env: Env)
    requires WellFormed(m)
  {
    Matches(f, m.level) && (f.targetId == 0 || (!Ignored(m, f.targetId) && f.targetId in env.targets))
  }

  ghost function OutputOf(f: Filter, m: Meta, env: Env): seq<Output>
    requires WellFormed(m)
  {
    if !Takes(f, m, env) then []
    else if f.targetId == 0 then (if env.hasDefault then [ToDefault(f.id)] else [])
    else [ToTarget(f.targetId, f.id)]
  }

  ghost function OutputsOf(fs: seq<Filter>, m: Meta, env: Env): seq<Output>
    requires WellFormed(m)
  {
    if fs == [] then [] else OutputsOf(fs[..|fs| - 1], m, env) + OutputOf(fs[|fs| - 1], m, env)
  }

  ghost predicate AnyTakes(fs: seq<Filter>, m: Meta, env: Env)
    requires WellFormed(m)
  {
    exists f :: f in fs && Takes(f, m, env)
  }

  ghost function DefaultOutput(env: Env): seq<Output> {
    if env.hasDefault then [ToDefault(0)] else []
  }

  /** The plain scan. */
  ghost function PlainRoute(rules: seq<Rule>, m: Meta, env: Env): seq<Output>
    requires WellFormed(m)
  {
    var k := BestKey(rules, m);
    if Meets(env.opts.levelFilterOutMask, m.level) || (k.None? && env.opts.defaultFilterOut) then []
    else
      var fs := if k.Some? then FiltersFor(rules, k.value) else [];
      OutputsOf(fs, m, env) + if AnyTakes(fs, m, env) then [] else DefaultOutput(env)
  }

  /** The list the message is routed by is full and some filter in it, enabled or not, has the level. */
  ghost predicate ScansFullList(rules: seq<Rule>, m: Meta, env: Env) {
    && !Meets(env.opts.levelFilterOutMask, m.level) && BestKey(rules, m).Some?
    && |FiltersFor(rules, BestKey(rules, m).value)| == LIST_SIZE
    && exists f :: f in FiltersFor(rules, BestKey(rules, m).value) && Meets(f.levelMask, m.level)
  }

  // Filter lists

  ghost function OrMasks(fs: seq<Filter>): bv32 {
    if fs == [] then 0 else Union(OrMasks(fs[..|fs| - 1]), fs[|fs| - 1].levelMask)
  }

  /** The bloom meets a level exactly when some filter does. */
  lemma {:induction false} BloomMeets(fs: seq<Filter>, level: bv32)
    ensures Meets(OrMasks(fs), level) <==> exists f :: f in fs && Meets(f.levelMask, level)
  {
    hide Meets, Union;
    if fs == [] {
      ZeroMeets(level);
    } else {
      var front, last := fs[..|fs| - 1], fs[|fs| - 1];
      BloomMeets(front, level);
      OrMeets(OrMasks(front), last.levelMask, level);
      assert fs == front + [last];
    }
  }

  lemma {:induction false} NoneMatch(fs: seq<Filter>, m: Meta, env: Env)
    requires WellFormed(m) && !Meets(OrMasks(fs), m.level)
    ensures OutputsOf(fs, m, env) == [] && !AnyTakes(fs, m, env)
  {
    hide Meets, Union, OrMasks;
    BloomMeets(fs, m.level);
    if fs != [] {
      var front := fs[..|fs| - 1];
      BloomMeets(front, m.level);
      assert fs[|fs| - 1] in fs;
      NoneMatch(front, m, env);
    }
  }

  const EMPTY: Filter := Filter(false, 0, 0, 0)

  /** The list holds the filters fs, then empty slots; the first of these may have been disabled. */
  ghost predicate ListInv(l: FilterList, fs: seq<Filter>, armed: bool) {
    && |l.list| == LIST_SIZE && |fs| <= LIST_SIZE && l.bloom == OrMasks(fs)
    && (forall i :: 0 <= i < |fs| ==> l.list[i] == fs[i] && fs[i].id != 0)
    && (forall i :: |fs| <= i < LIST_SIZE ==> l.list[i] == EMPTY.(disabled := armed && i == |fs|))
    && (forall i, j :: 0 <= i < j < |fs| ==> fs[i].id != fs[j].id)
  }

  /** FilterList::add: the first empty slot takes the filter, and keeps its own disabled flag. */
  method AddToList(l: FilterList, f: Filter, ghost fs: seq<Filter>, ghost armed: bool)
    returns (l2: FilterList, ok: bool)
    requires ListInv(l, fs, armed) && f.id != 0 && forall i :: 0 <= i < |fs| ==> fs[i].id != f.id
    ensures ok == (|fs| < LIST_SIZE)
    ensures if ok then ListInv(l2, fs + [f.(disabled := armed)], false) else l2 == l
  {
    hide Meets, Union;
    l2, ok := l, false;
    var n := 0;
    while n < LIST_SIZE
      invariant 0 <= n <= |fs| && l2 == l && !ok
      decreases LIST_SIZE - n
    {
      if l.list[n].id == 0 {
        l2 := FilterList(l.list[n := f.(disabled := l.list[n].disabled)], Union(l.bloom, f.levelMask));
        ok := true;
        assert (fs + [f.(disabled := armed)])[..|fs|] == fs;
        break;
      }
      n := n + 1;
    }
  }

  /** FilterList::find: looking for id 0 finds the first empty slot. */
  method FindInList(l: FilterList, id: nat, ghost fs: seq<Filter>, ghost armed: bool) returns (found: bool, n: nat)
    requires ListInv(l, fs, armed)
    ensures found ==> n < LIST_SIZE
    ensures id == 0 ==> found == (|fs| < LIST_SIZE) && (found ==> n == |fs|)
    ensures id != 0 ==> found == (exists i :: 0 <= i < |fs| && fs[i].id == id) && (found ==> n < |fs| && fs[n].id == id)
  {
    n := 0;
    while n < LIST_SIZE
      invariant 0 <= n <= LIST_SIZE && (forall i :: 0 <= i < n ==> l.list[i].id != id) && (id == 0 ==> n <= |fs|)
    {
      if l.list[n].id == id { return true, n; }
      n := n + 1;
    }
    return false, 0;
  }

  /** The loop over a message's ignore list. */
  method IsIgnored(m: Meta, target: nat) returns (ignore: bool)
    requires WellFormed(m)
    ensures ignore == Ignored(m, target)
  {
    ignore := false;
    if m.extras {
      var x := 0;
      while x < IGNORE_SIZE
        invariant 0 <= x <= IGNORE_SIZE && forall y :: 0 <= y < x ==> m.ignoreList[y] != 0 && m.ignoreList[y] != target
      {
        if m.ignoreList[x] == 0 { return false; }
        if m.ignoreList[x] == target { return true; }
        x := x + 1;
      }
    }
  }

  lemma OneMore(fs: seq<Filter>, f: Filter, m: Meta, env: Env)
    requires WellFormed(m)
    ensures OutputsOf(fs + [f], m, env) == OutputsOf(fs, m, env) + OutputOf(f, m, env)
    ensures AnyTakes(fs + [f], m, env) <==> AnyTakes(fs, m, env) || Takes(f, m, env)
  {
    hide Takes, OutputOf;
    assert (fs + [f])[..|fs|] == fs;
    assert f in fs + [f];
    forall g | g in fs ensures g in fs + [f] {}
  }

  /** The scan of one list up to its first empty slot; a full list has none. */
  method ScanList(l: FilterList, m: Meta, env: Env, ghost fs: seq<Filter>, ghost armed: bool)
    returns (out: seq<Output>, wrote: bool, overran: bool)
    requires ListInv(l, fs, armed) && WellFormed(m)
    ensures out == OutputsOf(fs, m, env) && wrote == AnyTakes(fs, m, env) && overran == (|fs| == LIST_SIZE)
  {
    hide Meets, Union, OrMasks, Ignored, OutputsOf, AnyTakes;
    out, wrote, overran := [], false, false;
    var n := 0;
    NoFilters(m, env);
    while n < LIST_SIZE && l.list[n].id != 0
      invariant 0 <= n <= |fs| && out == OutputsOf(fs[..n], m, env) && wrote == AnyTakes(fs[..n], m, env)
      decreases LIST_SIZE - n
    {
      var f := l.list[n];
      assert fs[..n + 1] == fs[..n] + [f];
      OneMore(fs[..n], f, m, env);
      if Matches(f, m.level) {
        var ignore := IsIgnored(m, f.targetId);
        if f.targetId == 0 {
          if env.hasDefault { out := out + [ToDefault(f.id)]; }
          wrote := true;
        } else if !ignore && f.targetId in env.targets {
          out := out + [ToTarget(f.targetId, f.id)];
          wrote := true;
        }
      }
      n := n + 1;
    }
    overran := n == LIST_SIZE;
    assert fs[..n] == fs;
  }

  // The hash table of lists

  /** A key of the table. */
  datatype HashKey = HashKey(bits: bv64)

  ghost function HashOf(k: Key): HashKey { HashKey(FilterHash(k.tag, k.origin)) }

  ghost predicate TableInv(table: map<HashKey, FilterList>, rules: seq<Rule>, armed: set<Key>) {
    forall k: Key :: KeyInv(table, HashOf(k), FiltersFor(rules, k), k in armed)
  }

  ghost predicate KeyInv(table: map<HashKey, FilterList>, h: HashKey, fs: seq<Filter>, armed: bool) {
    && (h in table <==> fs != []) && (h in table ==> ListInv(table[h], fs, armed))
    && (armed ==> fs != [] && |fs| < LIST_SIZE)
  }

  ghost predicate IdsBelow(rules: seq<Rule>, next: nat) {
    forall i :: 0 <= i < |rules| ==> rules[i].filter.id < next
  }

  lemma {:induction false} FiltersBelow(rules: seq<Rule>, next: nat, k: Key)
    requires IdsBelow(rules, next)
    ensures forall i :: 0 <= i < |FiltersFor(rules, k)| ==> FiltersFor(rules, k)[i].id < next
  {
    if rules != [] { FiltersBelow(rules[..|rules| - 1], next, k); }
  }

  /** Replacing the list of one key leaves the others alone. */
  lemma UpdateTable(table: map<HashKey, FilterList>, rules: seq<Rule>, armed: set<Key>, k: Key, l: FilterList,
                    rules2: seq<Rule>, armed2: set<Key>)
    requires TableInv(table, rules, armed)
    requires forall j: Key :: j != k ==> FiltersFor(rules2, j) == FiltersFor(rules, j) && (j in armed2 <==> j in armed)
    requires FiltersFor(rules2, k) != [] && ListInv(l, FiltersFor(rules2, k), k in armed2)
    requires k in armed2 ==> |FiltersFor(rules2, k)| < LIST_SIZE
    ensures TableInv(table[HashOf(k) := l], rules2, armed2)
  {
    hide HashOf, ListInv, FiltersFor;
    var h := HashOf(k);
    forall j: Key ensures KeyInv(table[h := l], HashOf(j), FiltersFor(rules2, j), j in armed2) {
      assert KeyInv(table, HashOf(j), FiltersFor(rules, j), j in armed);
      if HashOf(j) == h { KeysApart(j, k); }
    }
  }

  lemma KeysApart(j: Key, k: Key)
    requires HashOf(j) == HashOf(k)
    ensures j == k
  {
    HashInjective(j.tag, j.origin, k.tag, k.origin);
  }

  lemma AddRule(rules: seq<Rule>, r: Rule)
    ensures forall k: Key :: FiltersFor(rules + [r], k) == FiltersFor(rules, k) + if r.key == k then [r.filter] else []
  {
    assert (rules + [r])[..|rules|] == rules;
  }

  /** The rules with the flag of the filter of this key and id set. */
  ghost function SetFlag(rules: seq<Rule>, k: Key, id: nat, disabled: bool): seq<Rule> {
    seq(|rules|, i requires 0 <= i < |rules| =>
      if rules[i].key == k && rules[i].filter.id == id then rules[i].(filter := rules[i].filter.(disabled := disabled))
      else rules[i])
  }

  ghost function FlagAll(fs: seq<Filter>, id: nat, disabled: bool): seq<Filter> {
    seq(|fs|, i requires 0 <= i < |fs| => if fs[i].id == id then fs[i].(disabled := disabled) else fs[i])
  }

  lemma {:induction false} FlagFilters(rules: seq<Rule>, k: Key, id: nat, disabled: bool, j: Key)
    ensures FiltersFor(SetFlag(rules, k, id, disabled), j) ==
            if j == k then FlagAll(FiltersFor(rules, j), id, disabled) else FiltersFor(rules, j)
  {
    if rules != [] {
      var front := rules[..|rules| - 1];
      FlagFilters(front, k, id, disabled, j);
      assert SetFlag(rules, k, id, disabled)[..|rules| - 1] == SetFlag(front, k, id, disabled);
    }
  }

  /** Flags do not matter to the bloom. */
  lemma {:induction false} FlagMasks(fs: seq<Filter>, id: nat, disabled: bool)
    ensures OrMasks(FlagAll(fs, id, disabled)) == OrMasks(fs)
  {
    hide Union;
    if fs != [] {
      var front := fs[..|fs| - 1];
      FlagMasks(front, id, disabled);
      assert FlagAll(fs, id, disabled)[..|fs| - 1] == FlagAll(front, id, disabled);
    }
  }

  lemma FlagList(l: FilterList, fs: seq<Filter>, armed: bool, n: nat, disabled: bool)
    requires ListInv(l, fs, armed) && n < |fs|
    ensures ListInv(l.(list := l.list[n := l.list[n].(disabled := disabled)]), FlagAll(fs, fs[n].id, disabled), armed)
  {
    hide OrMasks;
    FlagMasks(fs, fs[n].id, disabled);
  }

  class FilterTable {
    var table: map<HashKey, FilterList>
    var nextFilterId: nat
    ghost var rules: seq<Rule>
    ghost var armed: set<Key>   // keys whose next filter will start out disabled

    ghost predicate Valid()
      reads this
    {
      TableInv(table, rules, armed) && IdsBelow(rules, nextFilterId) && nextFilterId > 0
    }

    constructor ()
      ensures Valid() && rules == [] && armed == {}
    {
      table, nextFilterId, rules, armed := map[], 1, [], {};
    }

    /** _addFilter: the rule joins the others unless its list is full; it starts out enabled unless an
        empty slot of its list was disabled. */
    method AddFilter(target: nat, origin: bv32, tag: bv32, level: bv32) returns (ok: bool, id: nat)
      requires Valid()
      modifies this
      ensures Valid() && id == old(nextFilterId) && nextFilterId == id + 1
      ensures ok == (|FiltersFor(old(rules), Key(origin, tag))| < 16)
      ensures var k := Key(origin, tag);
              rules == old(rules) + if ok then [Rule(k, Filter(k in old(armed), id, level, target))] else []
      ensures armed == if ok then old(armed) - {Key(origin, tag)} else old(armed)
    {
      hide HashOf, FilterHash, ListInv, FiltersFor, TableInv, IdsBelow, Union, OrMasks;
      var hash := HashKey(FilterHash(tag, origin));
      id := nextFilterId;
      nextFilterId := nextFilterId + 1;
      ghost var k, fs := Key(origin, tag), FiltersFor(rules, Key(origin, tag));
      HashIs(k);
      KeyFacts(table, rules, armed, k);
      FiltersBelow(rules, id, k);
      var list := if hash in table then table[hash] else FilterList(seq(LIST_SIZE, _ => EMPTY), 0);
      if hash !in table {
        NewList(list);
      }
      var f, list2 := Filter(false, id, level, target), list;
      list2, ok := AddToList(list, f, fs, k in armed);
      IdsStep(rules, id, Rule(k, f.(disabled := k in armed)));
      if ok {
        AddRule(rules, Rule(k, f.(disabled := k in armed)));
        UpdateTable(table, rules, armed, k, list2, rules + [Rule(k, f.(disabled := k in armed))], armed - {k});
        rules := rules + [Rule(k, f.(disabled := k in armed))];
        armed := armed - {k};
        table := table[hash := list2];
      }
    }

    /** disableFilter and enableFilter: the flag of the filter with this key and id is set; with id 0
        it is that of the list's first empty slot. */
    method SetDisabled(origin: bv32, tag: bv32, id: nat, disabled: bool) returns (found: bool)
      requires Valid()
      modifies this
      ensures Valid() && nextFilterId == old(nextFilterId)
      ensures id != 0 ==> found == HasId(FiltersFor(old(rules), Key(origin, tag)), id)
      ensures id != 0 ==> armed == old(armed)
      ensures id != 0 ==> rules == if found then SetFlag(old(rules), Key(origin, tag), id, disabled) else old(rules)
      ensures id == 0 ==> found == (0 < |FiltersFor(old(rules), Key(origin, tag))| < 16) && rules == old(rules)
      ensures id == 0 && !found ==> armed == old(armed)
      ensures id == 0 && found ==>
                armed == if disabled then old(armed) + {Key(origin, tag)} else old(armed) - {Key(origin, tag)}
    {
      hide HashOf, FilterHash, ListInv, FiltersFor, TableInv, IdsBelow, OrMasks, SetFlag;
      var hash := HashKey(FilterHash(tag, origin));
      ghost var k, fs := Key(origin, tag), FiltersFor(rules, Key(origin, tag));
      HashIs(k);
      KeyFacts(table, rules, armed, k);
      found := false;
      if hash in table {
        var list, n := table[hash], 0;
        found, n := FindInList(list, id, fs, k in armed);
        if found {
          var list2 := SetSlot(list, n, disabled, id, fs, k in armed);
          if id == 0 {
            ghost var armed2 := if disabled then armed + {k} else armed - {k};
            UpdateTable(table, rules, armed, k, list2, rules, armed2);
            armed := armed2;
          } else {
            ghost var rules2 := SetFlag(rules, k, id, disabled);
            forall j: Key
              ensures FiltersFor(rules2, j) ==
                      if j == k then FlagAll(FiltersFor(rules, j), id, disabled) else FiltersFor(rules, j)
            {
              FlagFilters(rules, k, id, disabled, j);
            }
            UpdateTable(table, rules, armed, k, list2, rules2, armed);
            FlagIds(rules, k, id, disabled, nextFilterId);
            rules := rules2;
          }
          table := table[hash := list2];
        }
      }
    }

    /** sift, for fresh metadata: whether to log, and the one list to route by, cached at the place of
        the probe that found it. */
    method Sift(m: Meta, opts: Options) returns (ret: bool, lists: seq<Option<FilterList>>)
      requires Valid()
      ensures ret == (!Meets(opts.levelFilterOutMask, m.level) && (BestKey(rules, m).Some? || !opts.defaultFilterOut))
      ensures ret <==> opts.levelFilterOutMask & m.level == 0 && (opts.defaultFilterOut ==> !NoneMatches(rules, m))
      ensures |lists| == 4 && forall i :: 0 <= i < 4 ==> lists[i].Some? ==> i == BestSlot(rules, m)
      ensures ret && BestKey(rules, m).Some? ==>
                var k := BestKey(rules, m).value;
                && FiltersFor(rules, k) != [] && BestSlot(rules, m) < 4 && lists[BestSlot(rules, m)].Some?
                && ListInv(lists[BestSlot(rules, m)].value, FiltersFor(rules, k), k in armed)
      ensures BestKey(rules, m).None? ==> BestSlot(rules, m) == 4
    {
      hide HashOf, FilterHash, ListInv, FiltersFor, TableInv, Meets, NoneMatches;
      MeetsOne(opts.levelFilterOutMask, m.level);
      BestKeyIsBest(rules, m);
      ret, lists := false, [None, None, None, None];
      if Meets(opts.levelFilterOutMask, m.level) { return; }
      var hashes := GetHashes(m.tag, m.origin);
      var zero := HashKey(0);
      ZeroHash();
      KeyFacts(table, rules, armed, Key(m.origin, m.tag));
      KeyFacts(table, rules, armed, Key(m.origin, 0));
      KeyFacts(table, rules, armed, Key(0, m.tag));
      KeyFacts(table, rules, armed, Key(0, 0));
      if hashes[0] in table {
        ret := true;
        lists := lists[0 := Some(table[hashes[0]])];
      }
      if !ret && hashes[1] in table {
        ret := true;
        lists := lists[1 := Some(table[hashes[1]])];
      }
      if !ret && hashes[2] in table {
        ret := true;
        lists := lists[2 := Some(table[hashes[2]])];
      }
      if !ret && zero in table {
        ret := true;
        lists := lists[3 := Some(table[zero])];
      }
      ret := ret || !opts.defaultFilterOut;
    }

    /** Routing of one message: unless it scans a full list, which has no end mark, exactly the writes
        of the plain scan, in order; it runs off a list exactly when that list is full and some filter
        in it has the message's level. */
    method Route(m: Meta, env: Env) returns (out: seq<Output>, overran: bool)
      requires Valid() && WellFormed(m)
      ensures overran == ScansFullList(rules, m, env)
      ensures !overran ==> out == PlainRoute(rules, m, env)
    {
      hide HashOf, FilterHash, ListInv, FiltersFor, TableInv, Meets, OutputsOf, AnyTakes, OrMasks;
      out, overran := [], false;
      var ret, lists := Sift(m, env.opts);
      if !ret { return; }
      var wrote, i := false, 0;
      ghost var best, slot := BestKey(rules, m), BestSlot(rules, m);
      ghost var fs := if best.Some? then FiltersFor(rules, best.value) else [];
      NoFilters(m, env);
      while i < 4
        invariant 0 <= i <= 4
        invariant if i <= slot then out == [] && !wrote && !overran
                  else overran == (|fs| == LIST_SIZE && Meets(OrMasks(fs), m.level)) &&
                       out == OutputsOf(fs, m, env) && wrote == AnyTakes(fs, m, env)
      {
        if lists[i].Some? {
          var list := lists[i].value;
          ListBloom(list, fs, best.Some? && best.value in armed);
          if Meets(list.bloom, m.level) {
            out, wrote, overran := ScanList(list, m, env, fs, best.value in armed);
          } else {
            NoneMatch(fs, m, env);
          }
        }
        i := i + 1;
      }
      BloomMeets(fs, m.level);
      if !wrote && env.hasDefault {
        out := out + [ToDefault(0)];
      }
    }
  }

  /** Which probe finds the list: 0 to 3, or 4 for none. */
  ghost function BestSlot(rules: seq<Rule>, m: Meta): nat {
    if FiltersFor(rules, Key(m.origin, m.tag)) != [] then 0
    else if FiltersFor(rules, Key(m.origin, 0)) != [] then 1
    else if FiltersFor(rules, Key(0, m.tag)) != [] then 2
    else if FiltersFor(rules, Key(0, 0)) != [] then 3
    else 4
  }

  /** getHashes: the second masks out the tag, the third the origin. */
  method GetHashes(tag: bv32, origin: bv32) returns (hashes: seq<HashKey>)
    ensures hashes == [HashOf(Key(origin, tag)), HashOf(Key(origin, 0)), HashOf(Key(0, tag))]
  {
    var h := FilterHash(tag, origin);
    HashParts(tag, origin);
    hashes := [HashKey(h), HashKey(h & ORIGIN_BITS), HashKey(h & TAG_BITS)];
  }

  lemma ZeroHash()
    ensures HashKey(0) == HashOf(Key(0, 0))
  {
    HashParts(0, 0);
  }

  lemma ListBloom(l: FilterList, fs: seq<Filter>, armed: bool)
    requires ListInv(l, fs, armed)
    ensures l.bloom == OrMasks(fs)
  {
  }

  lemma NoFilters(m: Meta, env: Env)
    requires WellFormed(m)
    ensures OutputsOf([], m, env) == [] && !AnyTakes([], m, env)
  {
  }


  ghost predicate HasId(fs: seq<Filter>, id: nat) {
    exists i :: 0 <= i < |fs| && fs[i].id == id
  }

  /** Setting the flag of the slot that FindInList found. */
  method SetSlot(l: FilterList, n: nat, disabled: bool, ghost id: nat, ghost fs: seq<Filter>, ghost armed: bool)
    returns (l2: FilterList)
    requires ListInv(l, fs, armed) && n < LIST_SIZE
    requires if id == 0 then n == |fs| else n < |fs| && fs[n].id == id
    ensures id == 0 ==> ListInv(l2, fs, disabled)
    ensures id != 0 ==> ListInv(l2, FlagAll(fs, id, disabled), armed)
  {
    hide OrMasks, FlagAll;
    if n < |fs| { FlagList(l, fs, armed, n, disabled); }
    l2 := l.(list := l.list[n := l.list[n].(disabled := disabled)]);
  }

  lemma HashIs(k: Key)
    ensures HashOf(k) == HashKey(FilterHash(k.tag, k.origin))
  {
  }

  lemma KeyFacts(table: map<HashKey, FilterList>, rules: seq<Rule>, armed: set<Key>, k: Key)
    requires TableInv(table, rules, armed)
    ensures KeyInv(table, HashOf(k), FiltersFor(rules, k), k in armed)
  {
  }

  lemma NewList(l: FilterList)
    requires l == FilterList(seq(LIST_SIZE, _ => EMPTY), 0)
    ensures ListInv(l, [], false)
  {
  }

  lemma IdsStep(rules: seq<Rule>, next: nat, r: Rule)
    requires IdsBelow(rules, next) && r.filter.id == next
    ensures IdsBelow(rules, next + 1) && IdsBelow(rules + [r], next + 1)
  {
  }

  lemma FlagIds(rules: seq<Rule>, k: Key, id: nat, disabled: bool, next: nat)
    requires IdsBelow(rules, next)
    ensures IdsBelow(SetFlag(rules, k, id, disabled), next)
  {
  }

  /** A write is in the scan of a list exactly when some filter of the list takes the message and
      sends it there. */
  lemma {:induction false} InOutputs(fs: seq<Filter>, m: Meta, env: Env, o: Output)
    requires WellFormed(m)
    ensures o in OutputsOf(fs, m, env) <==> exists f :: f in fs && o in OutputOf(f, m, env)
  {
    hide Takes;
    if fs != [] {
      var front, last := fs[..|fs| - 1], fs[|fs| - 1];
      InOutputs(front, m, env, o);
      assert fs == front + [last];
      if o in OutputOf(last, m, env) { assert last in fs; }
    }
  }

  // The plain scan in terms of the rules alone

  /** The rule's key is for messages like m: each part is the message's own or none. */
  predicate KeyMatches(k: Key, m: Meta) {
    (k.origin == 0 || k.origin == m.origin) && (k.tag == 0 || k.tag == m.tag)
  }

  /** How specific a key is: an origin counts more than a tag. */
  function Rank(k: Key): nat {
    (if k.origin != 0 then 2 else 0) + (if k.tag != 0 then 1 else 0)
  }

  /** The rule matches the message, and no rule that does has a more specific key. */
  ghost predicate IsBest(rules: seq<Rule>, r: Rule, m: Meta) {
    r in rules && KeyMatches(r.key, m) && forall x :: x in rules && KeyMatches(x.key, m) ==> Rank(x.key) <= Rank(r.key)
  }

  ghost predicate NoneMatches(rules: seq<Rule>, m: Meta) {
    forall x :: x in rules ==> !KeyMatches(x.key, m)
  }

  /** The filters of a key are those of the rules with that key. */
  lemma {:induction false} FiltersAre(rules: seq<Rule>, k: Key, f: Filter)
    ensures f in FiltersFor(rules, k) <==> Rule(k, f) in rules
  {
    if rules != [] {
      var r, front := rules[|rules| - 1], rules[..|rules| - 1];
      FiltersAre(front, k, f);
      assert rules == front + [r];
    }
  }

  lemma KeyHasRules(rules: seq<Rule>, k: Key)
    ensures FiltersFor(rules, k) != [] <==> exists x :: x in rules && x.key == k
  {
    hide FiltersFor;
    var fs := FiltersFor(rules, k);
    if fs != [] {
      FiltersAre(rules, k, fs[0]);
      assert Rule(k, fs[0]) in rules;
    }
    if x :| x in rules && x.key == k { FiltersAre(rules, k, x.filter); }
  }

  /** The probes find the most specific key that has a rule for the message, or none has. */
  lemma BestKeyIsBest(rules: seq<Rule>, m: Meta)
    ensures BestKey(rules, m).None? <==> NoneMatches(rules, m)
    ensures forall r :: r in rules ==> (IsBest(rules, r, m) <==> BestKey(rules, m) == Some(r.key))
  {
    hide FiltersFor;
    KeyHasRules(rules, Key(m.origin, m.tag));
    KeyHasRules(rules, Key(m.origin, 0));
    KeyHasRules(rules, Key(0, m.tag));
    KeyHasRules(rules, Key(0, 0));
    forall x | x in rules && KeyMatches(x.key, m)
      ensures x.key == Key(m.origin, m.tag) || x.key == Key(m.origin, 0) || x.key == Key(0, m.tag) || x.key == Key(0, 0)
    {
    }
  }

  /** A message reaches a registered target exactly when it is not filtered out by level, some enabled filter
      of a best rule has its level and names that target, and the message does not ignore it. */
  lemma ReachesTarget(rules: seq<Rule>, m: Meta, env: Env, target: nat, id: nat)
    requires WellFormed(m)
    ensures ToTarget(target, id) in PlainRoute(rules, m, env) <==>
            && env.opts.levelFilterOutMask & m.level == 0 && target != 0 && target in env.targets && !Ignored(m, target)
            && exists r :: IsBest(rules, r, m) && r.filter.id == id && r.filter.targetId == target
                           && !r.filter.disabled && r.filter.levelMask & m.level != 0
  {
    hide Meets, FiltersFor, Ignored, IsBest, BestKey, OutputsOf, AnyTakes;
    MeetsIs(m.level);
    BestFilters(rules, m);
    var fs := if BestKey(rules, m).Some? then FiltersFor(rules, BestKey(rules, m).value) else [];
    NoFilters(m, env);
    InOutputs(fs, m, env, ToTarget(target, id));
    assert ToTarget(target, id) in PlainRoute(rules, m, env) <==>
           && !Meets(env.opts.levelFilterOutMask, m.level)
           && exists f :: f in fs && ToTarget(target, id) in OutputOf(f, m, env);
  }

  /** The filters scanned are those of the best rules. */
  lemma BestFilters(rules: seq<Rule>, m: Meta)
    ensures forall r :: IsBest(rules, r, m) ==>
            BestKey(rules, m).Some? && r.filter in FiltersFor(rules, BestKey(rules, m).value)
    ensures BestKey(rules, m).Some? ==>
              forall f :: f in FiltersFor(rules, BestKey(rules, m).value) ==>
                IsBest(rules, Rule(BestKey(rules, m).value, f), m)
  {
    hide FiltersFor, BestKey;
    BestKeyIsBest(rules, m);
    forall r | IsBest(rules, r, m)
      ensures BestKey(rules, m).Some? && r.filter in FiltersFor(rules, BestKey(rules, m).value)
    {
      FiltersAre(rules, r.key, r.filter);
    }
    if BestKey(rules, m).Some? {
      var k := BestKey(rules, m).value;
      forall f | f in FiltersFor(rules, k) ensures IsBest(rules, Rule(k, f), m) {
        FiltersAre(rules, k, f);
      }
    }
  }

  /** It is written to the default target by a filter exactly when some enabled filter of a best rule has its
      level and names the default target, and there is one. */
  lemma ReachesDefault(rules: seq<Rule>, m: Meta, env: Env, id: nat)
    requires WellFormed(m) && id != 0
    ensures ToDefault(id) in PlainRoute(rules, m, env) <==>
            && env.opts.levelFilterOutMask & m.level == 0 && env.hasDefault
            && exists r :: IsBest(rules, r, m) && r.filter.id == id && r.filter.targetId == 0
                           && !r.filter.disabled && r.filter.levelMask & m.level != 0
  {
    hide Meets, FiltersFor, Ignored, IsBest, BestKey, OutputsOf, AnyTakes;
    MeetsIs(m.level);
    BestFilters(rules, m);
    var fs := if BestKey(rules, m).Some? then FiltersFor(rules, BestKey(rules, m).value) else [];
    NoFilters(m, env);
    InOutputs(fs, m, env, ToDefault(id));
    assert ToDefault(id) in PlainRoute(rules, m, env) <==>
           && !Meets(env.opts.levelFilterOutMask, m.level)
           && exists f :: f in fs && ToDefault(id) in OutputOf(f, m, env);
  }

  /** The enabled filter has the message's level and a target that the message may be written to. */
  ghost predicate Sends(f: Filter, m: Meta, env: Env)
    requires WellFormed(m)
  {
    !f.disabled && f.levelMask & m.level != 0
    && (f.targetId == 0 || (f.targetId in env.targets && !Ignored(m, f.targetId)))
  }

  /** Taking a message, with the levels' bits written out. */
  lemma TakesIsSends(f: Filter, m: Meta, env: Env)
    requires WellFormed(m)
    ensures Takes(f, m, env) <==> Sends(f, m, env)
  {
    hide Ignored, Meets;
    MeetsOne(f.levelMask, m.level);
  }

  lemma DefaultWhenNoneTakes(rules: seq<Rule>, m: Meta, env: Env)
    requires WellFormed(m) && forall r :: r in rules ==> r.filter.id != 0
    ensures ToDefault(0) in PlainRoute(rules, m, env) <==>
            && !Meets(env.opts.levelFilterOutMask, m.level) && env.hasDefault
            && (NoneMatches(rules, m) ==> !env.opts.defaultFilterOut)
            && !exists r :: IsBest(rules, r, m) && Takes(r.filter, m, env)
  {
    hide Meets, FiltersFor, Ignored, BestKey, OutputsOf, NoneMatches, IsBest, Takes;
    BestKeyIsBest(rules, m);
    BestFilters(rules, m);
    var fs := if BestKey(rules, m).Some? then FiltersFor(rules, BestKey(rules, m).value) else [];
    NoFilters(m, env);
    InOutputs(fs, m, env, ToDefault(0));
    forall f | f in fs ensures ToDefault(0) !in OutputOf(f, m, env) {
      BestHasId(rules, m, f);
    }
  }

  lemma BestHasId(rules: seq<Rule>, m: Meta, f: Filter)
    requires BestKey(rules, m).Some? && f in FiltersFor(rules, BestKey(rules, m).value)
    requires forall r :: r in rules ==> r.filter.id != 0
    ensures f.id != 0
  {
    hide BestKey, FiltersFor;
    FiltersAre(rules, BestKey(rules, m).value, f);
  }

  /** The default filter is used exactly when the message is not filtered out by level, there is a default
      target, and no best rule sends the message anywhere; where no rule matches at all, also the default must
      not be to filter out. */
  lemma DefaultFilterUsed(rules: seq<Rule>, m: Meta, env: Env)
    requires WellFormed(m) && forall r :: r in rules ==> r.filter.id != 0
    ensures ToDefault(0) in PlainRoute(rules, m, env) <==>
            && env.opts.levelFilterOutMask & m.level == 0 && env.hasDefault
            && (NoneMatches(rules, m) ==> !env.opts.defaultFilterOut)
            && !exists r :: IsBest(rules, r, m) && Sends(r.filter, m, env)
  {
    hide Meets, FiltersFor, PlainRoute, BestKey, NoneMatches, IsBest, Takes, Sends;
    DefaultWhenNoneTakes(rules, m, env);
    forall r: Rule ensures Takes(r.filter, m, env) <==> Sends(r.filter, m, env) {
      TakesIsSends(r.filter, m, env);
    }
    MeetsOne(env.opts.levelFilterOutMask, m.level);
  }

  lemma OverrunMeets(rules: seq<Rule>, m: Meta, env: Env)
    ensures ScansFullList(rules, m, env) <==>
            && !Meets(env.opts.levelFilterOutMask, m.level)
            && exists r :: IsBest(rules, r, m) && Meets(r.filter.levelMask, m.level)
                           && |FiltersFor(rules, r.key)| == LIST_SIZE
  {
    hide Meets, FiltersFor, BestKey, IsBest, OrMasks;
    BestFilters(rules, m);
    BestKeyOf(rules, m);
    if BestKey(rules, m).Some? {
      var k := BestKey(rules, m).value;
      forall f | f in FiltersFor(rules, k) ensures IsBest(rules, Rule(k, f), m) && Rule(k, f).filter == f {
      }
    }
  }

  /** The filter of the rule has the message's level, enabled or not. */
  predicate HasLevel(r: Rule, m: Meta) { r.filter.levelMask & m.level != 0 }

  lemma RuleHasLevel(r: Rule, m: Meta)
    ensures HasLevel(r, m) <==> Meets(r.filter.levelMask, m.level)
  {
    hide Meets;
    MeetsOne(r.filter.levelMask, m.level);
  }

  /** The scan runs off its list exactly when the message is not filtered out by level, sixteen rules share
      the best key, and one of them, enabled or not, has the level. */
  lemma OverrunIff(rules: seq<Rule>, m: Meta, env: Env)
    ensures ScansFullList(rules, m, env) <==>
            && env.opts.levelFilterOutMask & m.level == 0
            && exists r :: IsBest(rules, r, m) && HasLevel(r, m) && |FiltersFor(rules, r.key)| == 16
  {
    hide Meets, FiltersFor, BestKey, IsBest, ScansFullList, HasLevel;
    OverrunMeets(rules, m, env);
    MeetsOne(env.opts.levelFilterOutMask, m.level);
    forall r: Rule ensures HasLevel(r, m) <==> Meets(r.filter.levelMask, m.level) {
      RuleHasLevel(r, m);
    }
  }

  lemma BestKeyOf(rules: seq<Rule>, m: Meta)
    ensures forall r :: IsBest(rules, r, m) ==> BestKey(rules, m) == Some(r.key)
  {
    hide FiltersFor, BestKey;
    BestKeyIsBest(rules, m);
  }
}
