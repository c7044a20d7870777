/** Sums of sizes over finite sets of keys. */
module SizeSums {
  ghost function Pick(s: set<nat>): nat
    requires s != {}
  {
    var k :| k in s; k
  }

  ghost function SizeAt(sizes: map<nat, nat>, k: nat): nat {
    if k in sizes then sizes[k] else 0
  }

  ghost function SumSizes(sizes: map<nat, nat>, s: set<nat>): nat {
    if s == {} then 0 else SizeAt(sizes, Pick(s)) + SumSizes(sizes, s - {Pick(s)})
  }

  lemma {:induction false} SumWithout(sizes: map<nat, nat>, s: set<nat>, k: nat)
    requires k in s
    ensures SumSizes(sizes, s) == SizeAt(sizes, k) + SumSizes(sizes, s - {k})
    decreases |s|
  {
    hide SizeAt;
    var j := Pick(s);
    if j != k {
      SumWithout(sizes, s - {j}, k);
      SumWithout(sizes, s - {k}, j);
      assert s - {j} - {k} == s - {k} - {j};
    }
  }

  lemma {:induction false} SumAgree(a: map<nat, nat>, b: map<nat, nat>, s: set<nat>)
    requires forall k :: k in s ==> SizeAt(a, k) == SizeAt(b, k)
    ensures SumSizes(a, s) == SumSizes(b, s)
  {
    hide SizeAt;
    if s != {} { SumAgree(a, b, s - {Pick(s)}); }
  }

  ghost function SumAll(sizes: map<nat, nat>): nat { SumSizes(sizes, sizes.Keys) }

  lemma SumDrop(sizes: map<nat, nat>, k: nat)
    ensures SumAll(sizes - {k}) == SumAll(sizes) - SizeAt(sizes, k)
  {
    hide SumSizes;
    var rest := sizes.Keys - {k};
    SumAgree(sizes - {k}, sizes, rest);
    assert (sizes - {k}).Keys == rest;
    if k in sizes { SumWithout(sizes, sizes.Keys, k); } else { assert rest == sizes.Keys; }
  }

  lemma SumSet(sizes: map<nat, nat>, k: nat, n: nat)
    ensures SumAll(sizes[k := n]) == SumAll(sizes) - SizeAt(sizes, k) + n
  {
    hide SumSizes;
    var after := sizes[k := n];
    assert after - {k} == sizes - {k};
    SumDrop(sizes, k);
    SumDrop(after, k);
  }
}

/** The heap profile table: recorded allocations with their liveness bits, marking, and the
    snapshot of what was not marked. */
module HeapProfile {
  import opened Basics
  import opened ObjectChains
  import opened AddressMap
  import opened AddressTable
  import opened SizeSums

  /** A recorded allocation. The two low bits of the bucket word are the live and ignore flags. */
  datatype AllocValue = AllocValue(bytes: nat, bucketRep: nat) {
    predicate Live() { bucketRep % 2 == 1 }
    predicate Ignored() { bucketRep / 2 % 2 == 1 }
    function Bucket(): nat { bucketRep - bucketRep % 4 }
    function SetLive(l: bool): AllocValue { this.(bucketRep := bucketRep - bucketRep % 2 + if l then 1 else 0) }
    function SetIgnore(l: bool): AllocValue {
      this.(bucketRep := bucketRep - bucketRep / 2 % 2 * 2 + if l then 2 else 0)
    }
  }

  /** The flags and the bucket do not disturb one another, and a new value has neither flag. */
  lemma FlagsAreIndependent(v: AllocValue, l: bool)
    ensures v.SetLive(l).Live() == l && v.SetLive(l).Ignored() == v.Ignored() && v.SetLive(l).Bucket() == v.Bucket()
    ensures v.SetIgnore(l).Ignored() == l && v.SetIgnore(l).Live() == v.Live() && v.SetIgnore(l).Bucket() == v.Bucket()
    ensures v.SetLive(l).bytes == v.SetIgnore(l).bytes == v.bytes
    ensures !l && !v.Live() ==> v.SetLive(l) == v
  {
    var q := v.bucketRep / 4;
    Bits(v.bucketRep, q, v.bucketRep % 4);
    Bits(v.SetLive(l).bucketRep, q, v.bucketRep % 4 - v.bucketRep % 2 + if l then 1 else 0);
    Bits(v.SetIgnore(l).bucketRep, q, v.bucketRep % 2 + if l then 2 else 0);
  }

  /** The flags of a word in terms of its low two bits. */
  lemma Bits(rep: nat, q: nat, low: int)
    requires rep == 4 * q + low && 0 <= low < 4
    ensures rep % 4 == low && rep - rep % 4 == 4 * q && rep % 2 == low % 2 && rep / 2 % 2 == low / 2
  {
    if low < 2 { Halve(rep, 2 * q, low); } else { Halve(rep, 2 * q + 1, low - 2); }
  }

  lemma Halve(rep: nat, h: nat, b: int)
    requires rep == 2 * h + b && 0 <= b < 2
    ensures rep / 2 == h && rep % 2 == b
  {
  }

  lemma NewValueHasNoFlags(bytes: nat, bucket: nat)
    requires bucket % 4 == 0
    ensures var v := AllocValue(bytes, bucket); !v.Live() && !v.Ignored() && v.Bucket() == bucket
  {
  }

  function SizeOf(v: AllocValue): nat { v.bytes }

  datatype Stats = Stats(allocs: nat, frees: nat, allocSize: nat, freeSize: nat) {
    function Allocated(bytes: nat): Stats { this.(allocs := allocs + 1, allocSize := allocSize + bytes) }
    function Freed(bytes: nat): Stats { this.(frees := frees + 1, freeSize := freeSize + bytes) }
  }

  const NO_STATS: Stats := Stats(0, 0, 0, 0)

  /** The counts of a bucket; a bucket not seen yet has none. */
  function StatsOf(buckets: map<nat, Stats>, b: nat): Stats {
    if b in buckets then buckets[b] else NO_STATS
  }

  /** One figure of every bucket. */
  ghost function Column(buckets: map<nat, Stats>, f: Stats -> nat): map<nat, nat> {
    map b | b in buckets :: f(buckets[b])
  }

  /** Every total is the sum over the buckets. */
  ghost predicate Balanced(total: Stats, buckets: map<nat, Stats>) {
    && total.allocs == SumAll(Column(buckets, (x: Stats) => x.allocs))
    && total.frees == SumAll(Column(buckets, (x: Stats) => x.frees))
    && total.allocSize == SumAll(Column(buckets, (x: Stats) => x.allocSize))
    && total.freeSize == SumAll(Column(buckets, (x: Stats) => x.freeSize))
  }

  lemma ColumnSet(buckets: map<nat, Stats>, b: nat, x: Stats, f: Stats -> nat)
    requires f(NO_STATS) == 0
    ensures SumAll(Column(buckets[b := x], f)) == SumAll(Column(buckets, f)) - f(StatsOf(buckets, b)) + f(x)
  {
    hide SumAll;
    assert Column(buckets[b := x], f) == Column(buckets, f)[b := f(x)];
    SumSet(Column(buckets, f), b, f(x));
  }

  /** Counting something alike in the totals and in one bucket keeps the balance. */
  lemma BalanceKept(total: Stats, buckets: map<nat, Stats>, b: nat, bytes: nat)
    requires Balanced(total, buckets)
    ensures Balanced(total.Allocated(bytes), buckets[b := StatsOf(buckets, b).Allocated(bytes)])
    ensures Balanced(total.Freed(bytes), buckets[b := StatsOf(buckets, b).Freed(bytes)])
  {
    hide SumAll, Column;
    var x, y := StatsOf(buckets, b).Allocated(bytes), StatsOf(buckets, b).Freed(bytes);
    ColumnSet(buckets, b, x, (x: Stats) => x.allocs);
    ColumnSet(buckets, b, x, (x: Stats) => x.frees);
    ColumnSet(buckets, b, x, (x: Stats) => x.allocSize);
    ColumnSet(buckets, b, x, (x: Stats) => x.freeSize);
    ColumnSet(buckets, b, y, (x: Stats) => x.allocs);
    ColumnSet(buckets, b, y, (x: Stats) => x.frees);
    ColumnSet(buckets, b, y, (x: Stats) => x.allocSize);
    ColumnSet(buckets, b, y, (x: Stats) => x.freeSize);
  }

  lemma FreeCounted(buckets: map<nat, Stats>, b: nat, bytes: nat)
    ensures var after := buckets[b := StatsOf(buckets, b).Freed(bytes)];
            && after.Keys == buckets.Keys + {b} && after - {b} == buckets - {b}
            && (b !in buckets ==> after[b] == Stats(0, 1, 0, bytes))
            && (b in buckets ==>
                  var x := buckets[b];
                  after[b] == Stats(x.allocs, x.frees + 1, x.allocSize, x.freeSize + bytes))
  {
  }

  type Profile = map<nat, AllocValue>

  ghost function Sizes(view: Profile): map<nat, nat> {
    map k | k in view :: view[k].bytes
  }

  /** The bytes of all recorded objects. */
  ghost function Bytes(view: Profile): nat { SumAll(Sizes(view)) }

  lemma BytesSet(view: Profile, k: nat, v: AllocValue)
    ensures Bytes(view[k := v]) == Bytes(view) - (if k in view then view[k].bytes else 0) + v.bytes
    ensures Bytes(view - {k}) == Bytes(view) - (if k in view then view[k].bytes else 0)
  {
    hide SumAll;
    SumSet(Sizes(view), k, v.bytes);
    SumDrop(Sizes(view), k);
    assert Sizes(view[k := v]) == Sizes(view)[k := v.bytes];
    assert Sizes(view - {k}) == Sizes(view) - {k};
  }

  lemma CountWithout(view: Profile, k: nat)
    ensures |view - {k}| == |view| - (if k in view then 1 else 0)
  {
    assert (view - {k}).Keys == view.Keys - {k};
    assert |view| == |view.Keys| && |view - {k}| == |(view - {k}).Keys|;
  }

  /** Allocations counted and not freed, beyond the objects recorded. */
  ghost function ExtraObjects(total: Stats, view: Profile): int { total.allocs - total.frees - |view| }

  ghost function ExtraBytes(total: Stats, view: Profile): int { total.allocSize - total.freeSize - Bytes(view) }

  lemma AllocExtra(total: Stats, view: Profile, k: nat, v: AllocValue)
    ensures ExtraObjects(total.Allocated(v.bytes), view[k := v]) ==
            ExtraObjects(total, view) + if k in view then 1 else 0
    ensures ExtraBytes(total.Allocated(v.bytes), view[k := v]) ==
            ExtraBytes(total, view) + if k in view then view[k].bytes else 0
  {
    hide Bytes;
    BytesSet(view, k, v);
  }

  lemma FreeExtra(total: Stats, view: Profile, k: nat)
    requires k in view
    ensures ExtraObjects(total.Freed(view[k].bytes), view - {k}) == ExtraObjects(total, view)
    ensures ExtraBytes(total.Freed(view[k].bytes), view - {k}) == ExtraBytes(total, view)
  {
    hide Bytes;
    BytesSet(view, k, view[k]);
    CountWithout(view, k);
  }

  lemma NoBytes()
    ensures Bytes(map[]) == 0 && Balanced(NO_STATS, map[])
  {
    assert Sizes(map[]).Keys == {};
  }

  ghost function LiveSet(view: Profile): set<nat> {
    set k | k in view && view[k].Live()
  }

  /** Same objects of the same sizes in the same buckets; only live bits may differ. */
  ghost predicate SameObjects(a: Profile, b: Profile) {
    a.Keys == b.Keys && forall k :: k in a ==> b[k].SetLive(false) == a[k].SetLive(false)
  }

  /** What a leak report holds: the objects not marked live and not in the base snapshot. */
  ghost function NonLive(view: Profile, base: set<nat>): Profile {
    map k | k in view && !view[k].Live() && k !in base :: view[k]
  }

  ghost function Unmarked(view: Profile): Profile {
    map k | k in view :: view[k].SetLive(false)
  }

  class Snapshot {
    const map_: Table<AllocValue>
    var allocs: int
    var allocSize: int

    ghost predicate Valid()
      reads this, map_
    {
      map_.Valid()
    }

    constructor ()
      ensures Valid() && map_.View() == map[] && fresh(map_) && allocs == 0 && allocSize == 0
    {
      map_ := new Table<AllocValue>();
      allocs, allocSize := 0, 0;
    }

    /** Snapshot::Add: counts the object even where it replaces one at the same address. */
    method Add(ptr: nat, v: AllocValue)
      requires Valid()
      modifies this, map_
      ensures Valid() && map_.View() == old(map_.View())[ptr := v]
      ensures allocs == old(allocs) + 1 && allocSize == old(allocSize) + v.bytes
    {
      hide MemoryInv, Contents;
      map_.Insert(ptr, v);
      allocs := allocs + 1;
      allocSize := allocSize + v.bytes;
    }
  }

  class ProfileTable {
    const addressMap: Table<AllocValue>
    var total: Stats
    var buckets: map<nat, Stats>   // per allocation stack

    ghost predicate Valid()
      reads this, addressMap
    {
      addressMap.Valid() && Balanced(total, buckets)
    }

    ghost function View(): Profile
      reads this, addressMap
      requires Valid()
    {
      addressMap.View()
    }

    constructor ()
      ensures Valid() && View() == map[] && fresh(addressMap) && total == NO_STATS && buckets == map[]
    {
      addressMap := new Table<AllocValue>();
      total, buckets := NO_STATS, map[];
      NoBytes();
    }

    /** RecordAlloc: the new record replaces any earlier one at the same address, unmarked; the counts of
        its bucket, a new one if need be, and the totals go up alike. What is counted in use stays what is
        recorded, except that a replaced record stays counted. */
    method RecordAlloc(ptr: nat, bytes: nat, bucket: nat)
      requires Valid()
      modifies this, addressMap
      ensures Valid() && View() == old(View())[ptr := AllocValue(bytes, bucket)]
      ensures total.allocs == old(total.allocs) + 1 && total.allocSize == old(total.allocSize) + bytes
      ensures total.frees == old(total.frees) && total.freeSize == old(total.freeSize)
      ensures buckets.Keys == old(buckets).Keys + {bucket} && buckets - {bucket} == old(buckets) - {bucket}
      ensures bucket !in old(buckets) ==> buckets[bucket] == Stats(1, 0, bytes, 0)
      ensures bucket in old(buckets) ==>
                var b := old(buckets)[bucket];
                buckets[bucket] == Stats(b.allocs + 1, b.frees, b.allocSize + bytes, b.freeSize)
      ensures ExtraObjects(total, View()) == ExtraObjects(old(total), old(View())) + if ptr in old(View()) then 1 else 0
      ensures ExtraBytes(total, View()) ==
              ExtraBytes(old(total), old(View())) + if ptr in old(View()) then old(View())[ptr].bytes else 0
    {
      hide MemoryInv, Contents, Balanced, ExtraObjects, ExtraBytes;
      BalanceKept(total, buckets, bucket, bytes);
      AllocExtra(total, View(), ptr, AllocValue(bytes, bucket));
      var b := StatsOf(buckets, bucket);
      buckets := buckets[bucket := b.Allocated(bytes)];
      total := total.Allocated(bytes);
      addressMap.Insert(ptr, AllocValue(bytes, bucket));
    }

    /** RecordFree: an address that was never recorded changes nothing; otherwise the free is counted,
        with the recorded size, in the totals and in the bucket of the recorded allocation. What is counted
        in use stays what is recorded. */
    method RecordFree(ptr: nat)
      requires Valid()
      modifies this, addressMap
      ensures Valid() && View() == old(View()) - {ptr}
      ensures ptr in old(View()) ==>
                var v, b := old(View())[ptr], old(View())[ptr].Bucket();
                && total.frees == old(total.frees) + 1 && total.freeSize == old(total.freeSize) + v.bytes
                && total.allocs == old(total.allocs) && total.allocSize == old(total.allocSize)
                && buckets.Keys == old(buckets).Keys + {b} && buckets - {b} == old(buckets) - {b}
                && (b !in old(buckets) ==> buckets[b] == Stats(0, 1, 0, v.bytes))
                && (b in old(buckets) ==>
                      var x := old(buckets)[b];
                      buckets[b] == Stats(x.allocs, x.frees + 1, x.allocSize, x.freeSize + v.bytes))
      ensures ptr !in old(View()) ==> total == old(total) && buckets == old(buckets)
      ensures ExtraObjects(total, View()) == ExtraObjects(old(total), old(View()))
      ensures ExtraBytes(total, View()) == ExtraBytes(old(total), old(View()))
    {
      hide MemoryInv, Contents, Balanced, ExtraObjects, ExtraBytes, StatsOf, AllocValue.Bucket;
      if ptr in View() { FreeExtra(total, View(), ptr); } else { assert View() - {ptr} == View(); }
      var values := addressMap.m.evalue;
      var found, e := addressMap.FindAndRemove(ptr);
      if found {
        var v := values[e];
        var b := v.Bucket();
        BalanceKept(total, buckets, b, v.bytes);
        FreeCounted(buckets, b, v.bytes);
        buckets := buckets[b := StatsOf(buckets, b).Freed(v.bytes)];
        total := total.Freed(v.bytes);
      }
    }

    /** MarkAsLive: true exactly when the object is recorded and was not marked before. */
    method MarkAsLive(ptr: nat) returns (marked: bool)
      requires Valid()
      modifies addressMap
      ensures Valid() && marked == (ptr in old(View()) && !old(View())[ptr].Live())
      ensures View() == if marked then old(View())[ptr := old(View())[ptr].SetLive(true)] else old(View())
    {
      var e := addressMap.FindMutable(ptr);
      marked := false;
      if e != NULL {
        Stored(addressMap.m, addressMap.g, ptr);
        if !addressMap.m.evalue[e].Live() {
          addressMap.SetValue(ptr, e, addressMap.m.evalue[e].SetLive(true));
          marked := true;
        }
      }
    }

    method MarkAsIgnored(ptr: nat)
      requires Valid()
      modifies addressMap
      ensures Valid()
      ensures View() == if ptr in old(View()) then old(View())[ptr := old(View())[ptr].SetIgnore(true)] else old(View())
    {
      var e := addressMap.FindMutable(ptr);
      if e != NULL {
        Stored(addressMap.m, addressMap.g, ptr);
        addressMap.SetValue(ptr, e, addressMap.m.evalue[e].SetIgnore(true));
      }
    }

    /** FindInsideAlloc: the recorded object a pointer points at or into, within reach. */
    method FindInsideAlloc(ptr: nat, maxSize: nat) returns (found: bool, obj: nat, size: nat)
      requires Valid() && ptr < WORD && NonOverlapping(View(), SizeOf)
      ensures found ==> Covered(View(), SizeOf, ptr, obj) && size == View()[obj].bytes
      ensures found <==> exists k :: Covered(View(), SizeOf, ptr, k) && InReach(k, ptr, maxSize)
      ensures found ==> forall k :: Covered(View(), SizeOf, ptr, k) ==> k == obj
    {
      var e;
      e, obj := addressMap.FindInside(SizeOf, maxSize, ptr);
      found, size := e != NULL, 0;
      if found {
        Stored(addressMap.m, addressMap.g, obj);
        size := addressMap.m.evalue[e].bytes;
      }
    }

    /** AddIfNonLive: a marked object loses its mark; an unmarked one outside base is reported. */
    method AddIfNonLive(key: nat, e: Ptr, v: AllocValue, dest: Snapshot, base: Snapshot?)
      requires Valid() && key in addressMap.g.where && addressMap.g.where[key] == e
      requires addressMap.m.evalue[e] == v && dest.Valid() && key !in dest.map_.View() && dest.map_ != addressMap
      requires base != null ==> base.Valid() && base.map_ != addressMap && base.map_ != dest.map_ && base != dest
      modifies addressMap, dest, dest.map_
      ensures Valid() && dest.Valid() && addressMap.g == old(addressMap.g)
      ensures addressMap.m.ekey == old(addressMap.m.ekey)
      ensures base != null ==> base.Valid() && base.map_.View() == old(base.map_.View())
      ensures View() == SweptView(old(View()), key, v)
      ensures dest.map_.View() ==
              SweptReport(old(dest.map_.View()), if base == null then {} else old(base.map_.View()).Keys, key, v)
      ensures dest.allocs - |dest.map_.View()| == old(dest.allocs - |dest.map_.View()|)
      ensures dest.allocSize - Bytes(dest.map_.View()) == old(dest.allocSize - Bytes(dest.map_.View()))
    {
      hide MemoryInv, Contents, Bytes, Balanced;
      BytesSet(dest.map_.View(), key, v);
      if v.Live() {
        addressMap.SetValue(key, e, v.SetLive(false));
      } else {
        var inBase := false;
        if base != null {
          var e2;
          inBase, e2 := base.map_.Find(key);
        }
        if !inBase {
          dest.Add(key, v);
        }
      }
    }

    /** NonLiveSnapshot: the snapshot holds exactly the unmarked objects that are not in base,
        ignored or not; every mark is cleared for the next pass, and nothing else changes. */
    method NonLiveSnapshot(base: Snapshot?) returns (s: Snapshot)
      requires Valid() && (base != null ==> base.Valid() && base.map_ != addressMap)
      modifies addressMap
      ensures Valid() && View() == Unmarked(old(View())) && LiveSet(View()) == {}
      ensures fresh(s) && s.Valid() && s.allocs == |s.map_.View()| && s.allocSize == Bytes(s.map_.View())
      ensures s.map_.View() == NonLive(old(View()), if base == null then {} else old(base.map_.View()).Keys)
    {
      hide MemoryInv, Contents, SweepState, Unmarked, NonLive, LiveSet, Bytes, Balanced;
      s := new Snapshot();
      NoBytes();
      var visits := addressMap.Iterate();
      ghost var skip: set<nat> := if base == null then {} else base.map_.View().Keys;
      ghost var keys := VisitKeys(addressMap.m, addressMap.g, visits);
      SweepStart(View(), skip, keys);
      SweepAll(visits, keys, View(), skip, s, base);
      SweepDone(old(View()), View(), s.map_.View(), skip, keys);
    }

    /** The callbacks of one sweep, in visiting order. */
    method SweepAll(visits: seq<Ptr>, ghost keys: seq<nat>, ghost before: Profile, ghost skip: set<nat>, s: Snapshot,
                    base: Snapshot?)
      requires Valid() && s.Valid() && s.map_ != addressMap && |keys| == |visits|
      requires base != null ==> base.Valid() && base.map_ != addressMap && base.map_ != s.map_ && base != s
      requires skip == if base == null then {} else base.map_.View().Keys
      requires forall i :: 0 <= i < |keys| ==> VisitAt(addressMap.m.ekey, addressMap.g.where, visits[i], keys[i])
      requires SweepState(before, View(), s.map_.View(), skip, keys, 0)
      requires s.allocs == |s.map_.View()| && s.allocSize == Bytes(s.map_.View())
      modifies addressMap, s, s.map_
      ensures Valid() && s.Valid() && SweepState(before, View(), s.map_.View(), skip, keys, |keys|)
      ensures s.allocs == |s.map_.View()| && s.allocSize == Bytes(s.map_.View())
    {
      hide MemoryInv, Contents, SweepState, SweptView, SweptReport, Bytes, Balanced;
      ghost var g, ekey := addressMap.g, addressMap.m.ekey;
      var i := 0;
      while i < |visits|
        invariant 0 <= i <= |visits| && Valid() && s.Valid() && addressMap.g == g && addressMap.m.ekey == ekey
        invariant base != null ==> base.Valid() && base.map_.View().Keys == skip
        invariant SweepState(before, View(), s.map_.View(), skip, keys, i)
        invariant s.allocs == |s.map_.View()| && s.allocSize == Bytes(s.map_.View())
      {
        var e := visits[i];
        assert VisitAt(ekey, g.where, e, keys[i]);
        var key := addressMap.m.ekey[e];
        Stored(addressMap.m, g, key);
        var v := addressMap.m.evalue[e];
        SweepStep(before, View(), s.map_.View(), skip, keys, i);
        AddIfNonLive(key, e, v, s, base);
        i := i + 1;
      }
    }
  }

  lemma Stored<V>(m: Memory<V>, g: Shape, key: nat)
    requires MemoryInv(m, g)
    ensures key in g.where <==> key in Contents(m, g)
    ensures key in g.where ==> g.where[key] in m.evalue && Contents(m, g)[key] == m.evalue[g.where[key]]
  {
    hide HashInv, BlockInv, EntryInv, FreeInv, AllocInv;
  }

  /** The keys of the visited entries, in visiting order. */
  lemma VisitKeys<V>(m: Memory<V>, g: Shape, visits: seq<Ptr>) returns (keys: seq<nat>)
    requires MemoryInv(m, g) && NoDup(visits)
    requires forall e :: e in visits <==> e in m.ekey && m.ekey[e] in g.where && g.where[m.ekey[e]] == e
    ensures |keys| == |visits| && NoDup(keys)
    ensures forall i :: 0 <= i < |keys| ==> VisitAt(m.ekey, g.where, visits[i], keys[i])
    ensures forall k :: k in Contents(m, g) <==> k in keys
  {
    hide MemoryInv;
    KeysStored(m, g);
    assert forall i :: 0 <= i < |visits| ==> visits[i] in visits;
    keys := seq(|visits|, i requires 0 <= i < |visits| => m.ekey[visits[i]]);
    forall k | k in g.where ensures k in keys {
      var i :| 0 <= i < |visits| && visits[i] == g.where[k];
      assert keys[i] == k;
    }
  }

  ghost predicate VisitAt(ekey: map<Ptr, nat>, where: map<nat, Ptr>, e: Ptr, k: nat) {
    e in ekey && ekey[e] == k && k in where && where[k] == e
  }

  /** After i callbacks: the first i keys are unmarked and their leaks reported. */
  ghost predicate SweepState(before: Profile, view: Profile, report: Profile, skip: set<nat>, keys: seq<nat>, i: nat) {
    && i <= |keys| && NoDup(keys) && view.Keys == before.Keys && (forall k :: k in before <==> k in keys)
    && (forall j :: 0 <= j < i ==> view[keys[j]] == before[keys[j]].SetLive(false))
    && (forall j :: i <= j < |keys| ==> view[keys[j]] == before[keys[j]])
    && (forall k :: k in report <==> k in keys[..i] && k in before && !before[k].Live() && k !in skip)
    && (forall k :: k in report ==> report[k] == before[k])
  }

  ghost function SweptReport(report: Profile, skip: set<nat>, k: nat, v: AllocValue): Profile {
    if v.Live() || k in skip then report else report[k := v]
  }

  ghost function SweptView(view: Profile, k: nat, v: AllocValue): Profile {
    if v.Live() then view[k := v.SetLive(false)] else view
  }

  lemma SweepStep(before: Profile, view: Profile, report: Profile, skip: set<nat>, keys: seq<nat>, i: nat)
    requires SweepState(before, view, report, skip, keys, i) && i < |keys|
    ensures keys[i] in view && keys[i] !in report
    ensures var v := view[keys[i]];
            SweepState(before, SweptView(view, keys[i], v), SweptReport(report, skip, keys[i], v), skip, keys, i + 1)
  {
    assert keys[i] in keys;
    var k, v := keys[i], view[keys[i]];
    FlagsAreIndependent(v, false);
    assert keys[..i + 1] == keys[..i] + [k];
  }

  lemma SweepDone(before: Profile, view: Profile, report: Profile, skip: set<nat>, keys: seq<nat>)
    requires SweepState(before, view, report, skip, keys, |keys|)
    ensures view == Unmarked(before) && LiveSet(view) == {} && report == NonLive(before, skip)
  {
    assert keys[..|keys|] == keys;
    forall k | k in before ensures view[k] == before[k].SetLive(false) && !view[k].Live() {
      var j :| 0 <= j < |keys| && keys[j] == k;
    }
  }

  lemma SweepStart(before: Profile, skip: set<nat>, keys: seq<nat>)
    requires NoDup(keys) && forall k :: k in before <==> k in keys
    ensures SweepState(before, before, map[], skip, keys, 0)
  {
    forall j | 0 <= j < |keys| ensures keys[j] in before { assert keys[j] in keys; }
  }
}
