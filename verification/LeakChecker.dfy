/** The heap leak checker: the address bounds kept by the allocation hooks, the flood that marks
    everything reachable from the roots, and the report of what stayed unmarked. */
module LeakChecker {
  import opened Basics
  import opened AddressMap
  import opened AddressTable
  import opened HeapProfile
  import opened SizeSums

  type Word = w: nat | w < WORD

  const POINTER_SIZE: nat := 8

  datatype Placement = MUST_BE_ON_HEAP | IGNORED_ON_HEAP | MAYBE_LIVE | IN_GLOBAL_DATA | THREAD_DATA | THREAD_REGISTERS

  /** A piece of memory to look for heap pointers in. */
  datatype AllocObject = AllocObject(ptr: nat, size: nat, place: Placement)

  /** What the flood looks at: recorded sizes, memory words, alignment of pointers, search distance. */
  datatype Heap = Heap(sizes: map<nat, nat>, mem: nat -> Word, align: nat, maxSize: nat)

  /** The word at a is read when scanning o. */
  ghost predicate Scanned(h: Heap, o: AllocObject, a: nat) {
    h.align > 0 && a % h.align == 0 && o.ptr <= a && a + POINTER_SIZE <= o.ptr + o.size
  }

  ghost predicate Resolves(h: Heap, w: nat, k: nat) {
    k in h.sizes && (k == w || k <= w < k + h.sizes[k]) && InReach(k, w, h.maxSize)
  }

  ghost predicate PointsTo(h: Heap, o: AllocObject, k: nat) {
    exists a :: Scanned(h, o, a) && Resolves(h, h.mem(a), k)
  }

  /** What o makes live is all in s. */
  ghost predicate Into(h: Heap, o: AllocObject, s: set<nat>) {
    && (o.place == MUST_BE_ON_HEAP && o.ptr in h.sizes ==> o.ptr in s)
    && (forall k :: PointsTo(h, o, k) ==> k in s)
  }

  ghost function ObjectAt(h: Heap, k: nat): AllocObject
    requires k in h.sizes
  {
    AllocObject(k, h.sizes[k], IGNORED_ON_HEAP)
  }

  /** s has what the roots make live and is closed under pointers. */
  ghost predicate Bound(h: Heap, roots: set<AllocObject>, s: set<nat>) {
    && (forall o :: o in roots ==> Into(h, o, s))
    && (forall k :: k in s && k in h.sizes ==> Into(h, ObjectAt(h, k), s))
  }

  /** The least such set. */
  ghost function Reach(h: Heap, roots: set<AllocObject>): set<nat> {
    set k | k in h.sizes && forall s: set<nat> :: Bound(h, roots, s) ==> k in s
  }

  lemma ReachIsLeast(h: Heap, roots: set<AllocObject>)
    ensures Bound(h, roots, Reach(h, roots)) && Reach(h, roots) <= h.sizes.Keys
    ensures forall s: set<nat> :: Bound(h, roots, s) ==> Reach(h, roots) <= s
  {
    hide PointsTo;
    var r := Reach(h, roots);
    assert forall o, k :: PointsTo(h, o, k) ==> k in h.sizes by { PointsAtRecorded(h); }
    forall o | o in roots ensures Into(h, o, r) {
      forall s: set<nat> | Bound(h, roots, s) ensures Into(h, o, s) {}
    }
    forall j | j in r && j in h.sizes ensures Into(h, ObjectAt(h, j), r) {
      forall s: set<nat> | Bound(h, roots, s) ensures Into(h, ObjectAt(h, j), s) {}
    }
  }

  lemma PointsAtRecorded(h: Heap)
    ensures forall o, k :: PointsTo(h, o, k) ==> k in h.sizes
  {
  }

  /** A pointer path from a root: each object is pointed at from the one before it. */
  ghost predicate Path(h: Heap, roots: set<AllocObject>, ks: seq<nat>) {
    && ks != [] && (forall i :: 0 <= i < |ks| ==> ks[i] in h.sizes)
    && (exists o :: o in roots && (PointsTo(h, o, ks[0]) || (o.place == MUST_BE_ON_HEAP && o.ptr == ks[0])))
    && (forall i :: 0 <= i < |ks| - 1 ==> PointsTo(h, ObjectAt(h, ks[i]), ks[i + 1]))
  }

  ghost predicate OnPath(h: Heap, roots: set<AllocObject>, k: nat) {
    exists ks :: Path(h, roots, ks) && ks[|ks| - 1] == k
  }

  /** The least set is the set of objects at the end of some pointer path from a root. */
  lemma ReachIsPaths(h: Heap, roots: set<AllocObject>, k: nat)
    ensures k in Reach(h, roots) <==> OnPath(h, roots, k)
  {
    hide PointsTo, Reach;
    ReachIsLeast(h, roots);
    if OnPath(h, roots, k) {
      var ks :| Path(h, roots, ks) && ks[|ks| - 1] == k;
      PathInReach(h, roots, ks);
    }
    var onPath := set j | j in h.sizes && OnPath(h, roots, j);
    PointsAtRecorded(h);
    forall o | o in roots ensures Into(h, o, onPath) {
      forall j | j in h.sizes && (PointsTo(h, o, j) || (o.place == MUST_BE_ON_HEAP && o.ptr == j)) ensures j in onPath {
        assert Path(h, roots, [j]);
      }
    }
    forall i | i in onPath ensures Into(h, ObjectAt(h, i), onPath) {
      var ks :| Path(h, roots, ks) && ks[|ks| - 1] == i;
      forall j | PointsTo(h, ObjectAt(h, i), j) ensures j in onPath {
        assert Path(h, roots, ks + [j]);
      }
    }
    assert Bound(h, roots, onPath);
  }

  lemma {:induction false} PathInReach(h: Heap, roots: set<AllocObject>, ks: seq<nat>)
    requires Path(h, roots, ks)
    ensures ks[|ks| - 1] in Reach(h, roots)
  {
    hide PointsTo, Reach;
    ReachIsLeast(h, roots);
    if |ks| > 1 {
      var front := ks[..|ks| - 1];
      PathInReach(h, roots, front);
      assert PointsTo(h, ObjectAt(h, ks[|ks| - 2]), ks[|ks| - 1]);
    }
  }

  lemma NothingReached(h: Heap)
    ensures Reach(h, {}) == {}
  {
    ReachIsLeast(h, {});
    assert Bound(h, {}, {});
  }

  /** The work of the flood: every root and every live object is on the stack, is the piece being
      scanned, or has already made live all it points at. */
  ghost predicate Work(h: Heap, roots: set<AllocObject>, live: set<nat>, pending: set<AllocObject>) {
    && (forall o :: o in roots ==> o in pending || Into(h, o, live))
    && (forall k :: k in live && k in h.sizes ==> ObjectAt(h, k) in pending || Into(h, ObjectAt(h, k), live))
  }

  /** Nothing was or will be made live that is not reachable. */
  ghost predicate Sound(h: Heap, goal: set<nat>, live: set<nat>, pending: set<AllocObject>) {
    live <= goal && live <= h.sizes.Keys && forall o :: o in pending ==> Into(h, o, goal)
  }

  ghost function StackSet(stack: seq<AllocObject>): set<AllocObject> {
    set o | o in stack
  }

  /** What is pending while o is scanned: the stack, o, and the recorded object o stands for. */
  ghost function During(stack: seq<AllocObject>, o: AllocObject): set<AllocObject> {
    StackSet(stack) + {o, o.(place := IGNORED_ON_HEAP)}
  }

  ghost predicate RootsMatch(h: Heap, roots: set<AllocObject>) {
    forall o :: o in roots && o.place == MUST_BE_ON_HEAP && o.ptr in h.sizes ==> o.size == h.sizes[o.ptr]
  }

  lemma FloodStart(h: Heap, before: set<AllocObject>, stack: seq<AllocObject>)
    ensures var goal := Reach(h, before + StackSet(stack));
            Sound(h, goal, Reach(h, before), StackSet(stack)) &&
            Work(h, before + StackSet(stack), Reach(h, before), StackSet(stack))
  {
    hide Reach, Into;
    var all := before + StackSet(stack);
    ReachIsLeast(h, before);
    ReachIsLeast(h, all);
    assert Bound(h, before, Reach(h, all));
  }

  lemma FloodDone(h: Heap, roots: set<AllocObject>, live: set<nat>)
    requires Sound(h, Reach(h, roots), live, {}) && Work(h, roots, live, {})
    ensures live == Reach(h, roots)
  {
    hide Reach, Into;
    ReachIsLeast(h, roots);
    assert Bound(h, roots, live);
  }

  /** Taking the top piece off the stack; if it must be on the heap it is now live. */
  lemma PopPiece(h: Heap, roots: set<AllocObject>, goal: set<nat>, live: set<nat>, stack: seq<AllocObject>)
    requires stack != [] && Sound(h, goal, live, StackSet(stack)) && Work(h, roots, live, StackSet(stack))
    requires RootsMatch(h, StackSet(stack))
    ensures var o := stack[|stack| - 1];
            var live2 := if o.place == MUST_BE_ON_HEAP && o.ptr in h.sizes then live + {o.ptr} else live;
            var rest := stack[..|stack| - 1];
            && Sound(h, goal, live2, During(rest, o)) && Work(h, roots, live2, During(rest, o))
            && (o.place == MUST_BE_ON_HEAP && o.ptr in h.sizes ==> o.ptr in live2)
            && RootsMatch(h, StackSet(rest))
  {
    hide PointsTo;
    var o, rest := stack[|stack| - 1], stack[..|stack| - 1];
    assert o in stack && o in StackSet(stack) && stack == rest + [o];
    assert StackSet(stack) <= During(rest, o);
    PlaceIsIrrelevant(h, o);
  }

  lemma PlaceIsIrrelevant(h: Heap, o: AllocObject)
    ensures forall k :: PointsTo(h, o.(place := IGNORED_ON_HEAP), k) <==> PointsTo(h, o, k)
  {
    assert forall a :: Scanned(h, o.(place := IGNORED_ON_HEAP), a) <==> Scanned(h, o, a);
  }

  /** A newly marked object found while scanning o goes on the stack. */
  lemma PushPiece(h: Heap, roots: set<AllocObject>, goal: set<nat>, live: set<nat>, stack: seq<AllocObject>,
                  o: AllocObject, k: nat)
    requires Sound(h, goal, live, During(stack, o)) && Work(h, roots, live, During(stack, o)) && PointsTo(h, o, k)
    requires Bound(h, roots, goal) && k in h.sizes
    ensures var stack2 := stack + [ObjectAt(h, k)];
            Sound(h, goal, live + {k}, During(stack2, o)) && Work(h, roots, live + {k}, During(stack2, o))
    ensures RootsMatch(h, StackSet(stack)) ==> RootsMatch(h, StackSet(stack + [ObjectAt(h, k)]))
  {
    hide PointsTo;
    var x, stack2 := ObjectAt(h, k), stack + [ObjectAt(h, k)];
    assert StackSet(stack2) == StackSet(stack) + {x};
    assert o in During(stack, o);
    assert Into(h, x, goal);
  }

  /** Every word of o below a has been followed. */
  ghost predicate Followed(h: Heap, o: AllocObject, a: nat, live: set<nat>) {
    forall b: nat, k: nat :: Scanned(h, o, b) && b < a && Resolves(h, h.mem(b), k) ==> k in live
  }

  lemma ScanDone(h: Heap, roots: set<AllocObject>, goal: set<nat>, live: set<nat>, stack: seq<AllocObject>,
                 o: AllocObject, a: nat)
    requires Sound(h, goal, live, During(stack, o)) && Work(h, roots, live, During(stack, o))
    requires Followed(h, o, a, live) && o.ptr + o.size < a + POINTER_SIZE
    requires o.place == MUST_BE_ON_HEAP && o.ptr in h.sizes ==> o.ptr in live
    ensures Sound(h, goal, live, StackSet(stack)) && Work(h, roots, live, StackSet(stack))
  {
    PlaceIsIrrelevant(h, o);
    forall k | PointsTo(h, o, k) ensures k in live {
      var b: nat :| Scanned(h, o, b) && Resolves(h, h.mem(b), k);
      assert b < a;
    }
    hide PointsTo;
    assert Into(h, o, live);
    assert Into(h, o.(place := IGNORED_ON_HEAP), live);
  }

  /** The next aligned address: there is no other candidate in between. */
  lemma NextAligned(align: nat, a: nat, b: nat)
    requires align > 0 && a % align == 0 && b % align == 0 && a < b
    ensures a + align <= b && (a + align) % align == 0
  {
    assert (a + align) % align == 0 by { ModStep(a, align); }
    if b < a + align {
      ModRange(a, b, align);
    }
  }

  lemma ModStep(a: nat, n: nat)
    requires n > 0
    ensures (a + n) % n == a % n
  {
    var q := a / n;
    DivMod(a, n);
    assert a + n == (q + 1) * n + a % n;
    ModUnique(a + n, n, q + 1, a % n);
  }

  lemma ModUnique(a: nat, n: nat, q: nat, r: nat)
    requires n > 0 && r < n && a == q * n + r
    ensures a % n == r
  {
    DivMod(a, n);
    var q2, r2 := a / n, a % n;
    if q < q2 {
      MulMono(q + 1, q2, n);
    } else if q2 < q {
      MulMono(q2 + 1, q, n);
    }
  }

  lemma DivMod(a: nat, n: nat)
    requires n > 0
    ensures a == a / n * n + a % n && 0 <= a % n < n
  {
  }

  lemma ModRange(a: nat, b: nat, n: nat)
    requires n > 0 && a % n == 0 && a < b < a + n
    ensures b % n == b - a
  {
    DivMod(a, n);
    ModUnique(b, n, a / n, b - a);
  }

  /** Where the scan of a piece at p starts. */
  lemma FirstAligned(align: nat, p: nat)
    requires align > 0
    ensures var a := if p % align == 0 then p else p + align - p % align;
            p <= a && a % align == 0 && forall b :: p <= b && b % align == 0 ==> a <= b
  {
    var r := p % align;
    if r != 0 {
      var low := p - r;
      DivMod(p, align);
      assert low == p / align * align;
      ModUnique(low, align, p / align, 0);
      ModStep(low, align);
      forall b | p <= b && b % align == 0 ensures low + align <= b {
        NextAligned(align, low, b);
      }
    }
  }

  /** What the hooks guarantee about every recorded object. */
  ghost predicate InBounds(view: Profile, min: nat, max: nat, largest: nat) {
    forall k :: k in view ==> min <= k && k + view[k].bytes <= max && view[k].bytes <= largest
  }

  /** The fast check on the address bounds loses nothing. */
  lemma BoundsLoseNothing(view: Profile, min: nat, max: nat, largest: nat, h: Heap, w: nat, k: nat)
    requires InBounds(view, min, max, largest) && h.sizes == Sizes(view) && Resolves(h, w, k)
    ensures min <= w <= max
  {
  }

  /** Without a cap below the largest object, the search distance loses nothing either: a word
      resolves exactly when an object starts at it or contains it. */
  lemma UncappedSearch(view: Profile, min: nat, max: nat, largest: nat, h: Heap, w: nat, k: nat)
    requires InBounds(view, min, max, largest) && h.sizes == Sizes(view) && h.maxSize >= largest
    ensures Resolves(h, w, k) <==> Covered(view, SizeOf, w, k)
  {
    if Covered(view, SizeOf, w, k) {
      var q := k / BLOCK_SIZE;
      assert k <= q * BLOCK_SIZE + BLOCK_SIZE - 1;
      assert w - k <= largest;
    }
  }

  lemma ResolvesCovered(view: Profile, h: Heap, w: nat)
    requires h.sizes == Sizes(view)
    ensures forall k :: Resolves(h, w, k) <==> Covered(view, SizeOf, w, k) && InReach(k, w, h.maxSize)
  {
    hide InReach;
  }

  lemma Marked(view: Profile, k: nat)
    requires k in view
    ensures var view2 := view[k := view[k].SetLive(true)];
            Sizes(view2) == Sizes(view) && LiveSet(view2) == LiveSet(view) + {k} && SameObjects(view, view2) &&
            (NonOverlapping(view, SizeOf) ==> NonOverlapping(view2, SizeOf)) &&
            forall min, max, largest :: InBounds(view, min, max, largest) ==> InBounds(view2, min, max, largest)
  {
    FlagsAreIndependent(view[k], true);
    FlagsAreIndependent(view[k].SetLive(true), false);
    FlagsAreIndependent(view[k], false);
  }

  /** Recording a block keeps every recorded object within the widened bounds. */
  lemma BoundsGrow(view: Profile, min: nat, max: nat, largest: nat, min2: nat, max2: nat, largest2: nat, ptr: nat,
                   v: AllocValue)
    requires InBounds(view, min, max, largest) && min2 <= min && max <= max2 && largest <= largest2
    requires min2 <= ptr && ptr + v.bytes <= max2 && v.bytes <= largest2
    ensures InBounds(view[ptr := v], min2, max2, largest2) && InBounds(view, min2, max2, largest2)
  {
  }

  /** The block at ptr meets no other recorded block. */
  ghost predicate Apart(view: Profile, ptr: nat, size: nat) {
    && ptr + size < WORD
    && forall k :: k in view && k != ptr ==> (k < ptr ==> k + view[k].bytes <= ptr) && (ptr < k ==> ptr + size <= k)
  }

  class HeapLeakChecker {
    const heapProfile: ProfileTable
    var minHeapAddress: nat
    var maxHeapAddress: nat
    var maxHeapObjectSize: nat
    var heapCheckerOn: bool
    var liveObjects: seq<AllocObject>
    var liveTotal: Tally   // live_objects_total and live_bytes_total

    ghost predicate Valid()
      reads this, heapProfile, heapProfile.addressMap
    {
      heapProfile.Valid() && InBounds(heapProfile.View(), minHeapAddress, maxHeapAddress, maxHeapObjectSize)
    }

    constructor ()
      ensures Valid() && heapProfile.View() == map[] && fresh(heapProfile) && fresh(heapProfile.addressMap)
      ensures liveObjects == []
    {
      heapProfile := new ProfileTable();
      minHeapAddress, maxHeapAddress, maxHeapObjectSize := WORD - 1, 0, 0;
      heapCheckerOn, liveObjects, liveTotal := true, [], Tally(0, 0);
    }

    /** NewHook: the bounds are widened whether or not the checker is on. */
    method NewHook(ptr: nat, size: nat, bucket: nat, ignore: bool)
      requires Valid() && ptr + size < WORD && bucket % 4 == 0
      modifies this, heapProfile, heapProfile.addressMap
      ensures Valid() && heapCheckerOn == old(heapCheckerOn) && liveObjects == old(liveObjects)
      ensures ptr == 0 || !heapCheckerOn ==> heapProfile.View() == old(heapProfile.View())
      ensures ptr != 0 && heapCheckerOn ==>
                heapProfile.View() == old(heapProfile.View())[ptr := AllocValue(size, bucket + if ignore then 2 else 0)]
    {
      hide MemoryInv, Contents, InBounds, Balanced, Bytes, AllocValue.SetIgnore, ExtraBytes, ExtraObjects;
      if ptr != 0 {
        ghost var v := AllocValue(size, bucket + if ignore then 2 else 0);
        ghost var min, max, largest := minHeapAddress, maxHeapAddress, maxHeapObjectSize;
        if size > maxHeapObjectSize { maxHeapObjectSize := size; }
        if ptr < minHeapAddress { minHeapAddress := ptr; }
        if ptr + size > maxHeapAddress { maxHeapAddress := ptr + size; }
        BoundsGrow(heapProfile.View(), min, max, largest, minHeapAddress, maxHeapAddress, maxHeapObjectSize, ptr, v);
        if heapCheckerOn {
          heapProfile.RecordAlloc(ptr, size, bucket);
          if ignore {
            IgnoreBit(size, bucket);
            heapProfile.MarkAsIgnored(ptr);
            assert heapProfile.View() == old(heapProfile.View())[ptr := v];
          }
        }
      }
    }

    /** DeleteHook. */
    method DeleteHook(ptr: nat)
      requires Valid()
      modifies this, heapProfile, heapProfile.addressMap
      ensures Valid() && heapCheckerOn == old(heapCheckerOn) && liveObjects == old(liveObjects)
      ensures heapProfile.View() == if ptr != 0 && heapCheckerOn then old(heapProfile.View()) - {ptr}
              else old(heapProfile.View())
    {
      hide MemoryInv, Contents, Balanced, Bytes, AllocValue.Bucket;
      if ptr != 0 && heapCheckerOn {
        heapProfile.RecordFree(ptr);
      }
    }

    /** Looks at one word: an unmarked object it resolves to is marked and put on the stack. */
    method FollowWord(w: Word, maxSize: nat, ghost h: Heap, ghost roots: set<AllocObject>, ghost o: AllocObject)
      returns (d: Tally)
      requires Valid() && h.maxSize == maxSize
      requires FloodInv(h, roots, heapProfile.View(), liveObjects, During(liveObjects, o))
      requires ScannedWord(h, o, w)
      modifies this`liveObjects, heapProfile.addressMap
      ensures Valid() && FloodInv(h, roots, heapProfile.View(), liveObjects, During(liveObjects, o))
      ensures Grown(old(heapProfile.View()), heapProfile.View(), d) && d.objects == |liveObjects| - |old(liveObjects)|
      ensures forall k :: Resolves(h, w, k) ==> k in LiveSet(heapProfile.View())
    {
      hide MemoryInv, Contents, FloodInv, During, InBounds, Resolves, ScannedWord, Grown, LiveSet;
      d := Tally(0, 0);
      ghost var view := heapProfile.View();
      NotGrown(view);
      if w <= maxHeapAddress && minHeapAddress <= w {
        WordFacts(h, roots, view, liveObjects, During(liveObjects, o), w);
        var found, obj, size := heapProfile.FindInsideAlloc(w, maxSize);
        if found {
          FollowStep(h, roots, view, liveObjects, o, w, obj, minHeapAddress, maxHeapAddress, maxHeapObjectSize);
          var marked := heapProfile.MarkAsLive(obj);
          if marked {
            d := Tally(1, size);
            liveObjects := liveObjects + [AllocObject(obj, size, IGNORED_ON_HEAP)];
          }
        }
      } else {
        OutOfBounds(h, roots, view, liveObjects, During(liveObjects, o), w, minHeapAddress, maxHeapAddress,
          maxHeapObjectSize);
      }
    }

    /** Tries every aligned word of one piece of memory as a heap pointer. */
    method ScanPiece(o: AllocObject, mem: nat -> Word, align: nat, maxSize: nat, ghost h: Heap,
                     ghost roots: set<AllocObject>)
      returns (d: Tally)
      requires Valid() && h.mem == mem && h.align == align > 0 && h.maxSize == maxSize
      requires FloodInv(h, roots, heapProfile.View(), liveObjects, During(liveObjects, o))
      requires o.place == MUST_BE_ON_HEAP && o.ptr in h.sizes ==> o.ptr in LiveSet(heapProfile.View())
      modifies this`liveObjects, heapProfile.addressMap
      ensures Valid() && FloodInv(h, roots, heapProfile.View(), liveObjects, StackSet(liveObjects))
      ensures Grown(old(heapProfile.View()), heapProfile.View(), d) && d.objects == |liveObjects| - |old(liveObjects)|
    {
      hide MemoryInv, Contents, FloodInv, During, InBounds, Resolves, ScannedWord, Scanned, Grown, LiveSet, Followed,
           StackSet;
      d := Tally(0, 0);
      var at, size := o.ptr, o.size;
      var remainder := at % align;
      NotGrown(heapProfile.View());
      FirstAligned(align, o.ptr);
      if remainder != 0 {
        at := at + (align - remainder);
        size := if size >= align - remainder then size - (align - remainder) else 0;
      }
      ScanStart(h, o, at, LiveSet(heapProfile.View()));
      if size < POINTER_SIZE {
        LiftDone(h, roots, heapProfile.View(), liveObjects, o, at);
        return;
      }
      var maxObject := at + size - POINTER_SIZE;
      while at <= maxObject
        invariant Valid() && FloodInv(h, roots, heapProfile.View(), liveObjects, During(liveObjects, o))
        invariant Grown(old(heapProfile.View()), heapProfile.View(), d)
        invariant d.objects == |liveObjects| - |old(liveObjects)|
        invariant at % align == 0 && o.ptr <= at && maxObject + POINTER_SIZE == o.ptr + o.size
        invariant Followed(h, o, at, LiveSet(heapProfile.View()))
        decreases maxObject + align - at
      {
        ghost var before := heapProfile.View();
        ScanWord(h, o, at);
        var more := FollowWord(mem(at), maxSize, h, roots, o);
        GrownTwice(old(heapProfile.View()), before, heapProfile.View(), d, more);
        FollowedMore(h, o, at, before, heapProfile.View(), more);
        d := d.Plus(more);
        at := at + align;
      }
      StillLive(old(heapProfile.View()), heapProfile.View(), d);
      LiftDone(h, roots, heapProfile.View(), liveObjects, o, at);
    }

    /** IgnoreLiveObjectsLocked: given that the live objects are those reachable from the roots
        flooded so far, floods from the pieces on the stack as well. */
    method IgnoreLiveObjectsLocked(mem: nat -> Word, align: nat, maxSize: nat, ghost flooded: set<AllocObject>,
                                   ghost h: Heap)
      requires Valid() && align > 0 && NonOverlapping(heapProfile.View(), SizeOf)
      requires h == Heap(Sizes(heapProfile.View()), mem, align, maxSize)
      requires RootsMatch(h, StackSet(liveObjects)) && LiveSet(heapProfile.View()) == Reach(h, flooded)
      modifies this`liveObjects, this`liveTotal, heapProfile.addressMap
      ensures Valid() && liveObjects == [] && SameObjects(old(heapProfile.View()), heapProfile.View())
      ensures LiveSet(heapProfile.View()) == Reach(h, flooded + old(StackSet(liveObjects)))
      ensures liveTotal.objects - old(liveTotal).objects ==
              |LiveSet(heapProfile.View())| - |LiveSet(old(heapProfile.View()))|
      ensures liveTotal.bytes - old(liveTotal).bytes ==
              TallyOf(heapProfile.View()).bytes - TallyOf(old(heapProfile.View())).bytes
      ensures h.sizes == Sizes(heapProfile.View()) && NonOverlapping(heapProfile.View(), SizeOf)
    {
      hide MemoryInv, Contents, FloodInv, During, InBounds, Grown, LiveSet, StackSet, Reach, NonOverlapping,
           SameObjects, RootsMatch, TallyOf;
      ghost var roots := flooded + StackSet(liveObjects);
      LiftStart(h, flooded, heapProfile.View(), liveObjects);
      NotGrown(heapProfile.View());
      var d := Tally(0, 0);
      while liveObjects != []
        invariant Valid() && FloodInv(h, roots, heapProfile.View(), liveObjects, StackSet(liveObjects))
        invariant Grown(old(heapProfile.View()), heapProfile.View(), d) && liveTotal == old(liveTotal)
        decreases |h.sizes.Keys| - |LiveSet(heapProfile.View())|, |liveObjects|
      {
        ghost var before := heapProfile.View();
        var more := PopAndScan(mem, align, maxSize, h, roots);
        GrownTwice(old(heapProfile.View()), before, heapProfile.View(), d, more);
        LiveIsRecorded(h, roots, before, heapProfile.View(), liveObjects, more);
        d := d.Plus(more);
      }
      liveTotal := liveTotal.Plus(d);
      LiftFinish(h, roots, old(heapProfile.View()), heapProfile.View(), d);
    }

    /** One turn of the flood: the top piece leaves the stack, and what it points at enters. */
    method PopAndScan(mem: nat -> Word, align: nat, maxSize: nat, ghost h: Heap, ghost roots: set<AllocObject>)
      returns (d: Tally)
      requires Valid() && h.mem == mem && h.align == align > 0 && h.maxSize == maxSize && liveObjects != []
      requires FloodInv(h, roots, heapProfile.View(), liveObjects, StackSet(liveObjects))
      modifies this`liveObjects, heapProfile.addressMap
      ensures Valid() && FloodInv(h, roots, heapProfile.View(), liveObjects, StackSet(liveObjects))
      ensures Grown(old(heapProfile.View()), heapProfile.View(), d)
      ensures (d.objects > 0 || |liveObjects| < |old(liveObjects)|)
    {
      hide MemoryInv, Contents, FloodInv, During, InBounds, Grown, LiveSet, StackSet;
      ghost var start := heapProfile.View();
      d := Tally(0, 0);
      var o := liveObjects[|liveObjects| - 1];
      LiftPop(h, roots, start, liveObjects, minHeapAddress, maxHeapAddress, maxHeapObjectSize);
      liveObjects := liveObjects[..|liveObjects| - 1];
      if o.place == MUST_BE_ON_HEAP {
        var marked := heapProfile.MarkAsLive(o.ptr);
        if marked { d := Tally(1, o.size); }
      }
      ghost var view := heapProfile.View();
      var more := ScanPiece(o, mem, align, maxSize, h, roots);
      GrownTwice(start, view, heapProfile.View(), d, more);
      d := d.Plus(more);
    }

    /** MakeIgnoredObjectsLiveCallbackLocked over all allocations: every ignored object becomes a root. */
    method MakeIgnoredObjectsLive()
      requires Valid()
      modifies this`liveObjects
      ensures StackSet(liveObjects) == old(StackSet(liveObjects)) + IgnoredRoots(heapProfile.View())
    {
      hide MemoryInv, Contents, InBounds, IgnoredRoots, StackSet, Balanced, Bytes;
      var table := heapProfile.addressMap;
      var visits := table.Iterate();
      ghost var keys := VisitKeys(table.m, table.g, visits);
      ghost var view := heapProfile.View();
      RootsStart(view, liveObjects, keys);
      var i := 0;
      while i < |visits|
        invariant 0 <= i <= |visits| && |keys| == |visits|
        invariant StackSet(liveObjects) == old(StackSet(liveObjects)) + IgnoredUpTo(view, keys, i)
      {
        var e := visits[i];
        assert VisitAt(table.m.ekey, table.g.where, e, keys[i]);
        Stored(table.m, table.g, keys[i]);
        var v := table.m.evalue[e];
        RootsStep(view, liveObjects, keys, i);
        if v.Ignored() {
          liveObjects := liveObjects + [AllocObject(table.m.ekey[e], v.bytes, MUST_BE_ON_HEAP)];
        }
        i := i + 1;
      }
      RootsDone(view, keys);
    }

    /** A whole leak check: with every mark clear, floods from one group of roots after another and from
        the ignored objects, then reports. The report holds exactly the recorded objects that no pointer
        path from any root reaches and that are not in base, so no ignored one; every mark is clear
        again. */
    method FindLeaks(groups: seq<seq<AllocObject>>, mem: nat -> Word, align: nat, pointerCap: int, base: Snapshot?,
                     ghost h: Heap)
      returns (leaks: Snapshot)
      requires Valid() && align > 0 && pointerCap >= -1 && liveObjects == []
      requires NonOverlapping(heapProfile.View(), SizeOf) && LiveSet(heapProfile.View()) == {}
      requires base != null ==> base.Valid() && base.map_ != heapProfile.addressMap
      requires h == Heap(Sizes(heapProfile.View()), mem, align, SearchDistance(pointerCap, maxHeapObjectSize))
      requires forall i :: 0 <= i < |groups| ==> RootsMatch(h, StackSet(groups[i]))
      modifies this`liveObjects, this`liveTotal, heapProfile.addressMap
      ensures Valid() && leaks.Valid() && heapProfile.View() == Unmarked(old(heapProfile.View()))
      ensures LiveSet(heapProfile.View()) == {}
      ensures leaks.allocs == |leaks.map_.View()| && leaks.allocSize == Bytes(leaks.map_.View())
      ensures leaks.map_.View() ==
              Leaks(h, RootSet(groups, |groups|) + IgnoredRoots(old(heapProfile.View())),
                    if base == null then {} else old(base.map_.View()).Keys, old(heapProfile.View()))
      ensures forall k :: k in leaks.map_.View() ==> !leaks.map_.View()[k].Ignored()
      ensures var roots := RootSet(groups, |groups|) + IgnoredRoots(old(heapProfile.View()));
              var skip := if base == null then {} else old(base.map_.View()).Keys;
              var view := old(heapProfile.View());
              && (forall k :: k in leaks.map_.View() ==>
                 k in view && k !in skip && !CoverReached(h, roots, k, pointerCap))
              && (forall k :: k in view && k !in skip && !CoverReached(h, roots, k, -1) ==> k in leaks.map_.View())
    {
      hide MemoryInv, Contents, Bytes, Balanced, InBounds, LiveSet, StackSet, Reach, NonOverlapping, SameObjects,
           RootsMatch, RootSet,
           Unmarked, NonLive, Leaks, IgnoredRoots, CoverReached;
      var maxSize := SearchDistance(pointerCap, maxHeapObjectSize);
      NothingReached(h);
      RootSetNext(groups);
      ObjectsKept(heapProfile.View());
      ghost var before := heapProfile.View();
      ghost var skip: set<nat> := if base == null then {} else base.map_.View().Keys;
      var i := 0;
      while i < |groups|
        invariant 0 <= i <= |groups| && Valid() && liveObjects == [] && maxSize == h.maxSize
        invariant base != null ==> base.Valid() && base.map_.View().Keys == skip
        invariant h.sizes == Sizes(heapProfile.View()) && NonOverlapping(heapProfile.View(), SizeOf)
        invariant LiveSet(heapProfile.View()) == Reach(h, RootSet(groups, i)) && SameObjects(before, heapProfile.View())
      {
        ghost var view := heapProfile.View();
        liveObjects := groups[i];
        IgnoreLiveObjectsLocked(mem, align, maxSize, RootSet(groups, i), h);
        SameTwice(before, view, heapProfile.View());
        i := i + 1;
      }
      ghost var view, roots := heapProfile.View(), RootSet(groups, |groups|);
      MakeIgnoredObjectsLive();
      SameIgnored(before, view);
      NothingStacked();
      IgnoredMatch(h, view);
      IgnoreLiveObjectsLocked(mem, align, maxSize, roots, h);
      SameTwice(before, view, heapProfile.View());
      roots := roots + IgnoredRoots(before);
      LeaksAreNonLive(h, roots, skip, before, heapProfile.View());
      IgnoredStayOut(h, roots, skip, before);
      DistanceIsEnough(before, minHeapAddress, maxHeapAddress, maxHeapObjectSize, h, pointerCap);
      LeaksByCover(h, roots, skip, before, pointerCap);
      UnmarkedInBounds(heapProfile.View(), minHeapAddress, maxHeapAddress, maxHeapObjectSize);
      leaks := heapProfile.NonLiveSnapshot(base);
    }
  }

  /** The cap on pointer offsets, where -1 means none, and the largest object seen. */
  function SearchDistance(pointerCap: int, largest: nat): nat
    requires pointerCap >= -1
  {
    if pointerCap != -1 && pointerCap < largest then pointerCap else largest
  }

  // Leaks without the search distance: an object is pointed at when a word is its start or lies inside it

  /** The word is the start of the object at k or lies inside it, no more than limit bytes from its start;
      a limit of -1 is none. */
  ghost predicate Covers(sizes: map<nat, nat>, w: nat, k: nat, limit: int) {
    k in sizes && (k == w || k <= w < k + sizes[k]) && (limit == -1 || w - k <= limit)
  }

  ghost predicate WordCovers(h: Heap, o: AllocObject, k: nat, limit: int) {
    exists a :: h.align > 0 && a % h.align == 0 && o.ptr <= a && a + 8 <= o.ptr + o.size
                && Covers(h.sizes, h.mem(a), k, limit)
  }

  ghost predicate CoverPath(h: Heap, roots: set<AllocObject>, ks: seq<nat>, limit: int) {
    && ks != [] && (forall i :: 0 <= i < |ks| ==> ks[i] in h.sizes)
    && (exists o :: o in roots && (WordCovers(h, o, ks[0], limit) || (o.place == MUST_BE_ON_HEAP && o.ptr == ks[0])))
    && (forall i :: 0 <= i < |ks| - 1 ==> WordCovers(h, ObjectAt(h, ks[i]), ks[i + 1], limit))
  }

  /** Some path of such words leads from a root to the object at k. */
  ghost predicate CoverReached(h: Heap, roots: set<AllocObject>, k: nat, limit: int) {
    exists ks :: CoverPath(h, roots, ks, limit) && ks[|ks| - 1] == k
  }

  /** The search goes as far as words within the limit need. */
  ghost predicate FarEnough(h: Heap, limit: int) {
    (forall k :: k in h.sizes ==> h.sizes[k] <= h.maxSize) || 0 <= limit <= h.maxSize
  }

  lemma DistanceIsEnough(view: Profile, min: nat, max: nat, largest: nat, h: Heap, pointerCap: int)
    requires InBounds(view, min, max, largest) && h.sizes == Sizes(view) && pointerCap >= -1
    requires h.maxSize == SearchDistance(pointerCap, largest)
    ensures FarEnough(h, pointerCap)
  {
  }

  lemma ResolvesCovers(h: Heap, w: nat, k: nat, limit: int)
    ensures Resolves(h, w, k) ==> Covers(h.sizes, w, k, -1)
    ensures Covers(h.sizes, w, k, limit) && FarEnough(h, limit) ==> Resolves(h, w, k)
  {
    var q := k / BLOCK_SIZE;
    assert k <= q * BLOCK_SIZE + BLOCK_SIZE - 1;
  }

  lemma PointsCovers(h: Heap, o: AllocObject, k: nat, limit: int)
    ensures PointsTo(h, o, k) ==> WordCovers(h, o, k, -1)
    ensures WordCovers(h, o, k, limit) && FarEnough(h, limit) ==> PointsTo(h, o, k)
  {
    hide Resolves, Covers, FarEnough;
    forall a: nat
      ensures Resolves(h, h.mem(a), k) ==> Covers(h.sizes, h.mem(a), k, -1)
      ensures Covers(h.sizes, h.mem(a), k, limit) && FarEnough(h, limit) ==> Resolves(h, h.mem(a), k)
    {
      ResolvesCovers(h, h.mem(a), k, limit);
    }
  }

  lemma PathCovers(h: Heap, roots: set<AllocObject>, ks: seq<nat>, limit: int)
    ensures Path(h, roots, ks) ==> CoverPath(h, roots, ks, -1)
    ensures CoverPath(h, roots, ks, limit) && FarEnough(h, limit) ==> Path(h, roots, ks)
  {
    hide PointsTo, WordCovers, FarEnough;
    forall o: AllocObject, k: nat
      ensures PointsTo(h, o, k) ==> WordCovers(h, o, k, -1)
      ensures WordCovers(h, o, k, limit) && FarEnough(h, limit) ==> PointsTo(h, o, k)
    {
      PointsCovers(h, o, k, limit);
    }
  }

  lemma ReachCovers(h: Heap, roots: set<AllocObject>, k: nat, limit: int)
    requires FarEnough(h, limit)
    ensures k in Reach(h, roots) ==> CoverReached(h, roots, k, -1)
    ensures CoverReached(h, roots, k, limit) ==> k in Reach(h, roots)
  {
    hide Reach, Path, CoverPath, FarEnough;
    ReachIsPaths(h, roots, k);
    forall ks: seq<nat>
      ensures Path(h, roots, ks) ==> CoverPath(h, roots, ks, -1)
      ensures CoverPath(h, roots, ks, limit) ==> Path(h, roots, ks)
    {
      PathCovers(h, roots, ks, limit);
    }
  }

  /** Nothing within the cap of a pointer is reported, and everything no pointer leads to is. */
  lemma LeaksByCover(h: Heap, roots: set<AllocObject>, skip: set<nat>, view: Profile, limit: int)
    requires FarEnough(h, limit)
    ensures var leaks := Leaks(h, roots, skip, view);
            && (forall k :: k in leaks ==> k in view && k !in skip && !CoverReached(h, roots, k, limit))
            && (forall k :: k in view && k !in skip && !CoverReached(h, roots, k, -1) ==> k in leaks)
  {
    hide Reach, CoverReached, FarEnough;
    forall k | k in view
      ensures k in Reach(h, roots) ==> CoverReached(h, roots, k, -1)
      ensures CoverReached(h, roots, k, limit) ==> k in Reach(h, roots)
    {
      ReachCovers(h, roots, k, limit);
    }
  }

  /** Where no recorded object is larger than the cap, the cap does not matter: the report is exactly what
      no pointer leads to. */
  lemma CapDoesNotBind(h: Heap, roots: set<AllocObject>, k: nat, limit: int)
    requires limit == -1 || (limit >= 0 && forall j :: j in h.sizes ==> h.sizes[j] <= limit)
    ensures CoverReached(h, roots, k, limit) <==> CoverReached(h, roots, k, -1)
  {
    if limit != -1 {
      forall o: AllocObject, j: nat ensures WordCovers(h, o, j, limit) <==> WordCovers(h, o, j, -1) {
        assert forall w: nat :: Covers(h.sizes, w, j, limit) <==> Covers(h.sizes, w, j, -1);
      }
      hide WordCovers;
      assert forall ks: seq<nat> :: CoverPath(h, roots, ks, limit) <==> CoverPath(h, roots, ks, -1);
    }
  }

  ghost function RootSet(groups: seq<seq<AllocObject>>, n: nat): set<AllocObject>
    requires n <= |groups|
  {
    set i, o | 0 <= i < n && o in groups[i] :: o
  }

  lemma RootSetNext(groups: seq<seq<AllocObject>>)
    ensures RootSet(groups, 0) == {}
    ensures forall n :: 0 <= n < |groups| ==> RootSet(groups, n + 1) == RootSet(groups, n) + StackSet(groups[n])
  {
  }

  /** Recorded objects that are neither reachable nor in the base snapshot, unmarked. */
  ghost function Leaks(h: Heap, roots: set<AllocObject>, skip: set<nat>, view: Profile): Profile {
    map k | k in view && k !in Reach(h, roots) && k !in skip :: view[k].SetLive(false)
  }

  lemma ObjectsKept(view: Profile)
    ensures SameObjects(view, view)
  {
  }

  lemma SameTwice(a: Profile, b: Profile, c: Profile)
    requires SameObjects(a, b) && SameObjects(b, c)
    ensures SameObjects(a, c)
  {
  }

  lemma LeaksAreNonLive(h: Heap, roots: set<AllocObject>, skip: set<nat>, before: Profile, view: Profile)
    requires SameObjects(before, view) && LiveSet(view) == Reach(h, roots)
    ensures NonLive(view, skip) == Leaks(h, roots, skip, before) && Unmarked(view) == Unmarked(before)
  {
    hide Reach;
    forall k | k in view && !view[k].Live() ensures view[k] == before[k].SetLive(false) {
      FlagsAreIndependent(view[k], false);
    }
  }

  lemma UnmarkedInBounds(view: Profile, min: nat, max: nat, largest: nat)
    requires InBounds(view, min, max, largest)
    ensures InBounds(Unmarked(view), min, max, largest)
  {
    forall k | k in view ensures view[k].SetLive(false).bytes == view[k].bytes {}
  }

  ghost function IgnoredRoots(view: Profile): set<AllocObject> {
    set k | k in view && view[k].Ignored() :: AllocObject(k, view[k].bytes, MUST_BE_ON_HEAP)
  }

  ghost function IgnoredUpTo(view: Profile, keys: seq<nat>, n: nat): set<AllocObject>
    requires n <= |keys|
  {
    set i | 0 <= i < n && keys[i] in view && view[keys[i]].Ignored() ::
      AllocObject(keys[i], view[keys[i]].bytes, MUST_BE_ON_HEAP)
  }

  lemma RootsStart(view: Profile, stack: seq<AllocObject>, keys: seq<nat>)
    ensures StackSet(stack) == StackSet(stack) + IgnoredUpTo(view, keys, 0)
  {
  }

  lemma RootsStep(view: Profile, stack: seq<AllocObject>, keys: seq<nat>, i: nat)
    requires i < |keys| && keys[i] in view
    ensures var x := AllocObject(keys[i], view[keys[i]].bytes, MUST_BE_ON_HEAP);
            && StackSet(stack + [x]) == StackSet(stack) + {x}
            && IgnoredUpTo(view, keys, i + 1) ==
               IgnoredUpTo(view, keys, i) + if view[keys[i]].Ignored() then {x} else {}
  {
  }

  lemma RootsDone(view: Profile, keys: seq<nat>)
    requires forall k :: k in view <==> k in keys
    ensures IgnoredUpTo(view, keys, |keys|) == IgnoredRoots(view)
  {
    forall k | k in view && view[k].Ignored()
      ensures AllocObject(k, view[k].bytes, MUST_BE_ON_HEAP) in IgnoredUpTo(view, keys, |keys|)
    {
      var i :| 0 <= i < |keys| && keys[i] == k;
    }
  }

  lemma NothingStacked()
    ensures StackSet([]) == {}
  {
  }

  /** Ignored objects are pushed with their recorded sizes. */
  lemma IgnoredMatch(h: Heap, view: Profile)
    requires h.sizes == Sizes(view)
    ensures RootsMatch(h, {} + IgnoredRoots(view))
  {
  }

  lemma SameIgnored(a: Profile, b: Profile)
    requires SameObjects(a, b)
    ensures IgnoredRoots(a) == IgnoredRoots(b)
  {
    forall k | k in a ensures a[k].Ignored() == b[k].Ignored() && a[k].bytes == b[k].bytes {
      FlagsAreIndependent(a[k], false);
      FlagsAreIndependent(b[k], false);
    }
  }

  /** No ignored object is reported exactly when each is reached or in the base snapshot. */
  lemma IgnoredReportedIff(h: Heap, roots: set<AllocObject>, skip: set<nat>, view: Profile)
    ensures (forall k :: k in Leaks(h, roots, skip, view) ==> !Leaks(h, roots, skip, view)[k].Ignored())
            <==> forall k :: k in view && view[k].Ignored() ==> k in skip || k in Reach(h, roots)
  {
    hide Reach;
    var leaks := Leaks(h, roots, skip, view);
    forall k | k in view ensures view[k].SetLive(false).Ignored() == view[k].Ignored() {
      FlagsAreIndependent(view[k], false);
    }
    assert forall k :: k in view && k !in skip && k !in Reach(h, roots) ==> k in leaks;
  }

  /** Ignored objects that are roots stay out of the report. */
  lemma IgnoredStayOut(h: Heap, roots: set<AllocObject>, skip: set<nat>, view: Profile)
    requires h.sizes == Sizes(view) && IgnoredRoots(view) <= roots
    ensures forall k :: k in Leaks(h, roots, skip, view) ==> !Leaks(h, roots, skip, view)[k].Ignored()
  {
    hide Reach, PointsTo, Leaks;
    ReachIsLeast(h, roots);
    forall k | k in view && view[k].Ignored() ensures k in Reach(h, roots) {
      assert AllocObject(k, view[k].bytes, MUST_BE_ON_HEAP) in IgnoredRoots(view);
    }
    IgnoredReportedIff(h, roots, skip, view);
  }

  /** An object marked ignored and never marked live is in the report all the same: the sweep looks
      only at the live flag. */
  lemma IgnoredIsReported(ptr: nat, bytes: nat, bucket: nat)
    requires bucket % 4 == 0
    ensures var v := AllocValue(bytes, bucket).SetIgnore(true);
            v.Ignored() && NonLive(map[ptr := v], {}) == map[ptr := v]
  {
    NewValueHasNoFlags(bytes, bucket);
    FlagsAreIndependent(AllocValue(bytes, bucket), true);
  }


  ghost predicate ScannedWord(h: Heap, o: AllocObject, w: nat) {
    exists a :: Scanned(h, o, a) && h.mem(a) == w
  }

  /** How many objects, of how many bytes in all. */
  datatype Tally = Tally(objects: nat, bytes: nat) {
    function Plus(d: Tally): Tally { Tally(objects + d.objects, bytes + d.bytes) }
  }

  ghost function TallyOf(view: Profile): Tally {
    Tally(|LiveSet(view)|, SumSizes(Sizes(view), LiveSet(view)))
  }

  /** Marking only: the same objects, and d more of them live. */
  ghost predicate Grown(view: Profile, view2: Profile, d: Tally) {
    SameObjects(view, view2) && LiveSet(view) <= LiveSet(view2) && TallyOf(view2) == TallyOf(view).Plus(d)
  }

  lemma NotGrown(view: Profile)
    ensures Grown(view, view, Tally(0, 0))
  {
  }

  lemma GrownTwice(a: Profile, b: Profile, c: Profile, d: Tally, e: Tally)
    requires Grown(a, b, d) && Grown(b, c, e)
    ensures Grown(a, c, d.Plus(e))
  {
    hide LiveSet, TallyOf;
  }

  /** One object more. */
  lemma GrownByOne(view: Profile, k: nat)
    requires k in view && !view[k].Live()
    ensures Grown(view, view[k := view[k].SetLive(true)], Tally(1, view[k].bytes))
  {
    hide SameObjects, SumSizes;
    Marked(view, k);
    var view2 := view[k := view[k].SetLive(true)];
    SumWithout(Sizes(view), LiveSet(view2), k);
    assert LiveSet(view2) - {k} == LiveSet(view);
  }

  ghost predicate FloodInv(h: Heap, roots: set<AllocObject>, view: Profile, stack: seq<AllocObject>,
                           pending: set<AllocObject>) {
    && h.sizes == Sizes(view) && NonOverlapping(view, SizeOf) && RootsMatch(h, StackSet(stack))
    && Sound(h, Reach(h, roots), LiveSet(view), pending) && Work(h, roots, LiveSet(view), pending)
  }

  lemma WordFacts(h: Heap, roots: set<AllocObject>, view: Profile, stack: seq<AllocObject>, pending: set<AllocObject>,
                  w: nat)
    requires FloodInv(h, roots, view, stack, pending)
    ensures NonOverlapping(view, SizeOf)
    ensures forall k :: Resolves(h, w, k) <==> Covered(view, SizeOf, w, k) && InReach(k, w, h.maxSize)
  {
    ResolvesCovered(view, h, w);
  }

  lemma OutOfBounds(h: Heap, roots: set<AllocObject>, view: Profile, stack: seq<AllocObject>, pending: set<AllocObject>,
                    w: nat,
                    min: nat, max: nat, largest: nat)
    requires FloodInv(h, roots, view, stack, pending) && InBounds(view, min, max, largest) && (w > max || w < min)
    ensures forall k :: !Resolves(h, w, k)
  {
    hide Resolves, InBounds;
    forall k ensures !Resolves(h, w, k) {
      if Resolves(h, w, k) { BoundsLoseNothing(view, min, max, largest, h, w, k); }
    }
  }

  /** Marking the one object the word resolves to. */
  lemma FollowStep(h: Heap, roots: set<AllocObject>, view: Profile, stack: seq<AllocObject>, o: AllocObject, w: nat,
                   k: nat,
                   min: nat, max: nat, largest: nat)
    requires FloodInv(h, roots, view, stack, During(stack, o)) && ScannedWord(h, o, w)
    requires Resolves(h, w, k) && k in view && InBounds(view, min, max, largest)
    ensures view[k].Live() <==> k in LiveSet(view)
    ensures var view2, stack2 := view[k := view[k].SetLive(true)],
            stack + [AllocObject(k, view[k].bytes, IGNORED_ON_HEAP)];
            && InBounds(view2, min, max, largest) && k in LiveSet(view2)
            && (!view[k].Live() ==>
               Grown(view, view2, Tally(1, view[k].bytes)) && FloodInv(h, roots, view2, stack2, During(stack2, o)))
  {
    hide PointsTo, Reach, Into, Sound, Work, RootsMatch, NonOverlapping, During, SameObjects, InBounds, Grown;
    if !view[k].Live() { GrownByOne(view, k); }
    assert PointsTo(h, o, k) by { PointsFromWord(h, o, w, k); }
    Marked(view, k);
    ReachIsLeast(h, roots);
    PushPiece(h, roots, Reach(h, roots), LiveSet(view), stack, o, k);
  }

  lemma ScanStart(h: Heap, o: AllocObject, a: nat, live: set<nat>)
    requires forall b :: o.ptr <= b && h.align > 0 && b % h.align == 0 ==> a <= b
    ensures Followed(h, o, a, live)
  {
  }

  lemma ScanWord(h: Heap, o: AllocObject, a: nat)
    requires h.align > 0 && a % h.align == 0 && o.ptr <= a && a + POINTER_SIZE <= o.ptr + o.size
    ensures ScannedWord(h, o, h.mem(a))
  {
    assert Scanned(h, o, a);
  }

  lemma NextScanned(h: Heap, o: AllocObject, a: nat, b: nat)
    requires Scanned(h, o, b) && a % h.align == 0 && a < b
    ensures a + h.align <= b
  {
    NextAligned(h.align, a, b);
  }

  lemma FollowedMore(h: Heap, o: AllocObject, a: nat, before: Profile, view: Profile, d: Tally)
    requires h.align > 0 && a % h.align == 0 && Followed(h, o, a, LiveSet(before)) && Grown(before, view, d)
    requires forall k :: Resolves(h, h.mem(a), k) ==> k in LiveSet(view)
    ensures Followed(h, o, a + h.align, LiveSet(view)) && (a + h.align) % h.align == 0
  {
    hide Resolves, SameObjects, LiveSet, Scanned, TallyOf;
    ModStep(a, h.align);
    forall b: nat, k: nat | Scanned(h, o, b) && b < a + h.align && Resolves(h, h.mem(b), k) ensures k in LiveSet(view) {
      if a < b { NextScanned(h, o, a, b); }
    }
  }

  lemma StillLive(before: Profile, view: Profile, d: Tally)
    requires Grown(before, view, d)
    ensures forall k :: k in LiveSet(before) ==> k in LiveSet(view)
  {
  }

  lemma LiftDone(h: Heap, roots: set<AllocObject>, view: Profile, stack: seq<AllocObject>, o: AllocObject, a: nat)
    requires FloodInv(h, roots, view, stack, During(stack, o))
    requires Followed(h, o, a, LiveSet(view)) && o.ptr + o.size < a + POINTER_SIZE
    requires o.place == MUST_BE_ON_HEAP && o.ptr in h.sizes ==> o.ptr in LiveSet(view)
    ensures FloodInv(h, roots, view, stack, StackSet(stack))
  {
    hide Sound, Work, Reach, Followed, During, StackSet, NonOverlapping;
    ScanDone(h, roots, Reach(h, roots), LiveSet(view), stack, o, a);
  }

  lemma LiftStart(h: Heap, flooded: set<AllocObject>, view: Profile, stack: seq<AllocObject>)
    requires h.sizes == Sizes(view) && NonOverlapping(view, SizeOf) && RootsMatch(h, StackSet(stack))
    requires LiveSet(view) == Reach(h, flooded)
    ensures FloodInv(h, flooded + StackSet(stack), view, stack, StackSet(stack))
  {
    hide Sound, Work, Reach, StackSet, NonOverlapping;
    FloodStart(h, flooded, stack);
  }

  lemma LiftPop(h: Heap, roots: set<AllocObject>, view: Profile, stack: seq<AllocObject>, min: nat, max: nat,
                largest: nat)
    requires FloodInv(h, roots, view, stack, StackSet(stack)) && stack != [] && InBounds(view, min, max, largest)
    ensures var o, rest := stack[|stack| - 1], stack[..|stack| - 1];
            var mark := o.place == MUST_BE_ON_HEAP && o.ptr in view && !view[o.ptr].Live();
            var view2 := if mark then view[o.ptr := view[o.ptr].SetLive(true)] else view;
            && FloodInv(h, roots, view2, rest, During(rest, o))
            && Grown(view, view2, if mark then Tally(1, o.size) else Tally(0, 0))
            && (o.place == MUST_BE_ON_HEAP && o.ptr in h.sizes ==> o.ptr in LiveSet(view2))
            && InBounds(view2, min, max, largest)
  {
    hide Sound, Work, Reach, During, StackSet, NonOverlapping, InBounds, SameObjects, RootsMatch, Grown;
    var o := stack[|stack| - 1];
    PopPiece(h, roots, Reach(h, roots), LiveSet(view), stack);
    NotGrown(view);
    TopMatches(h, stack);
    if o.ptr in view {
      if !view[o.ptr].Live() { GrownByOne(view, o.ptr); }
      Marked(view, o.ptr);
      assert o.ptr in LiveSet(view) ==> LiveSet(view) + {o.ptr} == LiveSet(view);
    }
  }

  lemma TopMatches(h: Heap, stack: seq<AllocObject>)
    requires RootsMatch(h, StackSet(stack)) && stack != []
    ensures var o := stack[|stack| - 1]; o.place == MUST_BE_ON_HEAP && o.ptr in h.sizes ==> o.size == h.sizes[o.ptr]
  {
    assert stack[|stack| - 1] in StackSet(stack);
  }

  lemma LiveIsRecorded(h: Heap, roots: set<AllocObject>, before: Profile, view: Profile, stack: seq<AllocObject>,
                       d: Tally)
    requires FloodInv(h, roots, view, stack, StackSet(stack)) && Grown(before, view, d)
    ensures |LiveSet(view)| <= |h.sizes.Keys| && |LiveSet(view)| == |LiveSet(before)| + d.objects
  {
    hide Work, Reach, StackSet, NonOverlapping, SameObjects, RootsMatch, LiveSet, Into;
    Fewer(LiveSet(view), h.sizes.Keys);
  }

  lemma Fewer(a: set<nat>, b: set<nat>)
    requires a <= b
    ensures |a| <= |b|
  {
    assert b == a + (b - a);
  }

  lemma LiftFinish(h: Heap, roots: set<AllocObject>, before: Profile, view: Profile, d: Tally)
    requires FloodInv(h, roots, view, [], StackSet([])) && Grown(before, view, d)
    ensures LiveSet(view) == Reach(h, roots) && SameObjects(before, view) && TallyOf(view) == TallyOf(before).Plus(d)
    ensures TallyOf(view).objects == |LiveSet(view)| && TallyOf(before).objects == |LiveSet(before)|
    ensures h.sizes == Sizes(view) && NonOverlapping(view, SizeOf)
  {
    hide Sound, Work, Reach, NonOverlapping, SameObjects, RootsMatch, LiveSet;
    assert StackSet([]) == {};
    FloodDone(h, roots, LiveSet(view));
  }

  lemma PointsFromWord(h: Heap, o: AllocObject, w: nat, k: nat)
    requires ScannedWord(h, o, w) && Resolves(h, w, k)
    ensures PointsTo(h, o, k)
  {
  }

  lemma IgnoreBit(bytes: nat, bucket: nat)
    requires bucket % 4 == 0
    ensures AllocValue(bytes, bucket).SetIgnore(true) == AllocValue(bytes, bucket + 2)
  {
  }

  /** A block apart from the others keeps the recorded ranges from overlapping. */
  lemma StaysNonOverlapping(view: Profile, ptr: nat, v: AllocValue)
    requires NonOverlapping(view, SizeOf) && Apart(view, ptr, v.bytes)
    ensures NonOverlapping(view[ptr := v], SizeOf) && NonOverlapping(view - {ptr}, SizeOf)
  {
  }
}
