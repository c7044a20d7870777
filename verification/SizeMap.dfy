/** tcmalloc's size classes: how they are computed, how a size is mapped to its class, and how
    many pages a span of a class has. The constants are those of the default build. */
module SizeMap {
  import opened Basics

  const ALIGNMENT := 8
  const MIN_ALIGN := 16
  const PAGE_SIZE := 8192
  const MAX_SIZE := 262144
  const MAX_SMALL_SIZE := 1024
  const NUM_CLASSES := 88
  const CLASS_ARRAY_SIZE := 2169

  // ----- alignment -----

  function Pow2(n: nat): (r: nat)
    ensures r > 0
  {
    if n == 0 then 1 else 2 * Pow2(n - 1)
  }

  lemma {:induction false} Pow2Add(a: nat, b: nat)
    ensures Pow2(a + b) == Pow2(a) * Pow2(b)
  {
    if a > 0 { Pow2Add(a - 1, b); }
  }

  /** Exponent k brackets n between two neighbouring powers of two. */
  ghost predicate Brackets(k: nat, n: nat) {
    Pow2(k) <= n < 2 * Pow2(k)
  }

  lemma MulAssoc(p: nat, q: nat, x: nat)
    ensures (p * q) * x == p * (q * x)
  {
  }

  /** n0 is p times n, up to a remainder below p. */
  ghost predicate Scaled(p: nat, n: nat, n0: nat) {
    p * n <= n0 < p * (n + 1)
  }

  /** Dividing n by q with quotient x scales n0 down by p*q. */
  lemma ShiftStep(n0: nat, n: nat, p: nat, q: nat, x: nat)
    requires q * x <= n && n + 1 <= q * (x + 1) && Scaled(p, n, n0)
    ensures Scaled(p * q, x, n0)
  {
    MulAssoc(p, q, x);
    MulAssoc(p, q, x + 1);
    MulMono(q * x, n, p);
    MulMono(n + 1, q * (x + 1), p);
  }

  lemma DivBounds(n: nat, q: nat)
    requires q > 0
    ensures q * (n / q) <= n && n + 1 <= q * (n / q + 1)
  {
  }

  /** Floor of the base-2 logarithm of any 32-bit n > 0, by five conditional shifts. */
  method LgFloor(n0: nat) returns (log: nat)
    requires 0 < n0 < 0x1_0000_0000
    ensures Brackets(log, n0)
  {
    hide Pow2, Scaled, Brackets;
    var n, i := n0, 5;
    log := 0;
    FirstLimit();
    ScaledStart(n0);
    while i > 0
      invariant 0 <= i <= 5 && n > 0 && Scaled(Pow2(log), n, n0) && n < Pow2(Pow2(i))
    {
      i := i - 1;
      var shift := Pow2(i);
      PowerDoubles(i);
      LgStep(n0, n, log, shift);
      var x := n / Pow2(shift);
      if x != 0 {
        n := x;
        log := log + shift;
      }
    }
    ScaledEnd(log, n, n0);
  }

  lemma ScaledStart(n: nat)
    ensures Scaled(Pow2(0), n, n)
  {
  }

  lemma ScaledEnd(log: nat, n: nat, n0: nat)
    requires n > 0 && n < Pow2(Pow2(0)) && Scaled(Pow2(log), n, n0)
    ensures Brackets(log, n0)
  {
    assert Pow2(0) == 1 && Pow2(1) == 2;
    assert n == 1;
  }

  lemma FirstLimit()
    ensures Pow2(Pow2(5)) == 0x1_0000_0000
  {
    assert Pow2(5) == 32 && Pow2(8) == 256;
    Pow2Add(8, 8);
    Pow2Add(16, 16);
  }

  lemma PowerDoubles(i: nat)
    ensures Pow2(i + 1) == 2 * Pow2(i)
  {
  }

  /** One conditional shift keeps the bracket and halves the exponent of what is left. */
  lemma LgStep(n0: nat, n: nat, log: nat, shift: nat)
    requires n < Pow2(2 * shift) && Scaled(Pow2(log), n, n0)
    ensures var x := n / Pow2(shift);
            Scaled(Pow2(log + shift), x, n0) && x < Pow2(shift) && (x == 0 ==> n < Pow2(shift))
  {
    hide Pow2, Scaled;
    var q := Pow2(shift);
    Pow2Add(shift, shift);
    SmallQuotient(n, q, n / q);
    DivBounds(n, q);
    ShiftStep(n0, n, Pow2(log), q, n / q);
    Pow2Add(log, shift);
  }

  lemma SmallQuotient(n: nat, q: nat, x: nat)
    requires q > 0 && x == n / q && n < q * q
    ensures x < q && (x == 0 ==> n < q)
  {
    DivBounds(n, q);
    if q <= x { MulMono(q, x, q); }
  }

  /** Alignment wanted for objects of a given size, given the exponent that brackets the size. */
  function AlignmentFor(size: nat, lg: nat): nat {
    if size > MAX_SIZE then PAGE_SIZE
    else if size >= 128 then (if Pow2(lg) / 8 > PAGE_SIZE then PAGE_SIZE else Pow2(lg) / 8)
    else if size >= MIN_ALIGN then MIN_ALIGN
    else ALIGNMENT
  }

  ghost predicate IsPow2(a: nat) {
    exists k :: a == Pow2(k)
  }

  lemma {:induction false} Pow2Monotonic(a: nat, b: nat)
    requires a <= b
    ensures Pow2(a) <= Pow2(b)
  {
    if a < b { Pow2Monotonic(a, b - 1); }
  }

  /** A size from 128 to the maximum is bracketed by one of twelve exponents. */
  lemma LgRange(size: nat, lg: nat)
    requires Brackets(lg, size) && 128 <= size <= MAX_SIZE
    ensures 7 <= lg <= 18
  {
    assert Pow2(7) == 128 && Pow2(19) == 4 * Pow2(17) && Pow2(17) == 131072 by {
      assert Pow2(4) == 16 && Pow2(8) == 256;
      Pow2Add(8, 8);
      Pow2Add(16, 1);
      Pow2Add(17, 2);
      Pow2Add(4, 3);
    }
    if lg < 7 { Pow2Monotonic(lg + 1, 7); } else if lg > 18 { Pow2Monotonic(19, lg); }
  }

  lemma Pow2Table()
    ensures Pow2(3) == 8 && Pow2(4) == 16 && Pow2(5) == 32 && Pow2(6) == 64 && Pow2(7) == 128 && Pow2(8) == 256
    ensures Pow2(9) == 512 && Pow2(10) == 1024 && Pow2(11) == 2048 && Pow2(12) == 4096 && Pow2(13) == 8192
    ensures Pow2(14) == 16384 && Pow2(15) == 32768 && Pow2(16) == 65536 && Pow2(17) == 131072 && Pow2(18) == 262144
  {
    assert Pow2(3) == 8;
    assert Pow2(6) == 64;
    assert Pow2(9) == 512;
    assert Pow2(12) == 4096;
    assert Pow2(15) == 32768;
    assert Pow2(18) == 262144;
  }

  /** The two checks at the end of AlignmentForSize never fail. */
  method AlignmentForSize(size: nat) returns (alignment: nat)
    requires size < 0x1_0000_0000
    ensures IsPow2(alignment) && (size < MIN_ALIGN || alignment >= MIN_ALIGN)
    ensures ALIGNMENT <= alignment <= PAGE_SIZE
    ensures size < 16 ==> alignment == 8
    ensures 16 <= size < 128 ==> alignment == 16
    ensures 128 <= size <= 262144 ==> 8 * alignment <= size < 16 * alignment || (alignment == 8192 && size >= 131072)
    ensures size > 262144 ==> alignment == 8192
    ensures exists lg :: (128 <= size <= MAX_SIZE ==> Brackets(lg, size)) && alignment == AlignmentFor(size, lg)
  {
    Pow2Table();
    alignment := ALIGNMENT;
    assert IsPow2(8) && IsPow2(16) && IsPow2(8192) by { assert 8 == Pow2(3) && 16 == Pow2(4) && 8192 == Pow2(13); }
    ghost var lg := 0;
    if size > MAX_SIZE {
      alignment := PAGE_SIZE;
    } else if size >= 128 {
      var log := LgFloor(size);
      lg := log;
      LgRange(size, log);
      Pow2Add(log - 3, 3);
      Pow2Monotonic(7, log);
      alignment := Pow2(log) / 8;
      assert alignment == Pow2(log - 3);
      assert IsPow2(alignment);
    } else if size >= MIN_ALIGN {
      alignment := MIN_ALIGN;
    }
    if alignment > PAGE_SIZE {
      alignment := PAGE_SIZE;
    }
    assert alignment == AlignmentFor(size, lg);
  }

  lemma DivTrans(n: nat, a: nat, b: nat)
    requires a > 0 && b > 0 && n % a == 0 && a % b == 0
    ensures n % b == 0
  {
    var k, m := n / a, a / b;
    assert n == a * k && a == b * m;
    assert n == b * (m * k);
    Multiple(b, m * k);
  }

  lemma Multiple(b: nat, k: nat)
    requires b > 0
    ensures (b * k) % b == 0
  {
    var q, r := (b * k) / b, (b * k) % b;
    assert b * k == b * q + r;
    if q < k {
      MulMono(q + 1, k, b);
    } else if k < q {
      MulMono(k + 1, q, b);
    }
  }

  /** From one multiple of a below a multiple b, the next multiple of a is at most b. */
  lemma NextMultiple(n: nat, a: nat, b: nat)
    requires a > 0 && n % a == 0 && b % a == 0 && n < b
    ensures n + a <= b && (n + a) % a == 0
  {
    Quotient(n, a);
    Quotient(b, a);
    StepQuotient(n / a, b / a, a);
    Multiple(a, n / a + 1);
  }

  lemma Quotient(n: nat, a: nat)
    requires a > 0 && n % a == 0
    ensures n == a * (n / a)
  {
  }

  lemma StepQuotient(k: nat, m: nat, a: nat)
    requires a * k < a * m
    ensures a * k + a == a * (k + 1) <= a * m
  {
    if m <= k { MulMono(m, k, a); } else { MulMono(k + 1, m, a); }
  }

  /** Between 2^lg and 2^(lg+1) the alignment divides both ends, and above 1024 it is a multiple of 128. */
  lemma AlignmentTable(lg: nat)
    requires 7 <= lg <= 18
    ensures var b := Pow2(lg); var a := if b / 8 > PAGE_SIZE then PAGE_SIZE else b / 8;
            16 <= a <= b && a % 8 == 0 && (2 * b) % a == 0 && b % a == 0 && (lg >= 10 ==> a % 128 == 0)
    ensures Pow2(lg) % 128 == 0 && (lg <= 9 ==> 2 * Pow2(lg) <= 1024) && (lg <= 17 ==> 2 * Pow2(lg) <= MAX_SIZE)
    ensures lg == 18 ==> Pow2(lg) == MAX_SIZE
  {
    Pow2Table();
  }

  lemma BracketsUnique(k: nat, m: nat, n: nat)
    requires Brackets(k, n) && Brackets(m, n)
    ensures k == m
  {
    if k < m { Pow2Monotonic(k + 1, m); } else if m < k { Pow2Monotonic(m + 1, k); }
  }

  /** The walk from one size to the next stays on multiples of the alignment, never jumps over
      the maximum, and above 1024 stays on multiples of 128. */
  lemma NextSize(size: nat, lg: nat, lg2: nat)
    requires 0 < size < MAX_SIZE && (size >= 128 ==> Brackets(lg, size))
    requires size % AlignmentFor(size, lg) == 0
    requires var next := size + AlignmentFor(size, lg); 128 <= next <= MAX_SIZE ==> Brackets(lg2, next)
    ensures var next := size + AlignmentFor(size, lg);
            && next <= MAX_SIZE && next % AlignmentFor(next, lg2) == 0
            && next % ALIGNMENT == 0 && (next > MAX_SMALL_SIZE ==> next % 128 == 0)
  {
    var a := AlignmentFor(size, lg);
    var next := size + a;
    if size >= 128 {
      LgRange(size, lg);
      AlignmentTable(lg);
      NextMultiple(size, a, 2 * Pow2(lg));
      NextInBand(size, lg, lg2);
    } else {
      Pow2Table();
      if next >= 128 {
        assert next == 128 && Brackets(7, next);
        BracketsUnique(7, lg2, next);
      }
    }
  }

  lemma NextInBand(size: nat, lg: nat, lg2: nat)
    requires 128 <= size < MAX_SIZE && Brackets(lg, size) && 7 <= lg <= 18
    requires var a := AlignmentFor(size, lg); a > 0 && size % a == 0 && (size + a) % a == 0 && size + a <= 2 * Pow2(lg)
    requires size + AlignmentFor(size, lg) <= MAX_SIZE ==> Brackets(lg2, size + AlignmentFor(size, lg))
    ensures var next := size + AlignmentFor(size, lg);
            && next <= MAX_SIZE && next % AlignmentFor(next, lg2) == 0
            && next % ALIGNMENT == 0 && (next > MAX_SMALL_SIZE ==> next % 128 == 0)
  {
    hide Pow2, Brackets;
    var a, b := AlignmentFor(size, lg), Pow2(lg);
    var next := size + a;
    AlignmentTable(lg);
    BandEnd(size, lg);
    DivTrans(next, a, 8);
    if next < 2 * b {
      StayInBand(size, next, lg, lg2);
      if lg >= 10 { DivTrans(next, a, 128); }
    } else {
      EnterBand(next, lg, lg2);
      AlignmentTable(lg + 1);
    }
  }

  /** The maximum is the start of its band. */
  lemma BandEnd(size: nat, lg: nat)
    requires size < MAX_SIZE && Brackets(lg, size) && 7 <= lg <= 18
    ensures lg <= 17 && Pow2(lg) <= size
  {
    AlignmentTable(lg);
  }

  lemma StayInBand(size: nat, next: nat, lg: nat, lg2: nat)
    requires Brackets(lg, size) && size <= next < 2 * Pow2(lg) && Brackets(lg2, next)
    ensures lg2 == lg
  {
    BracketsUnique(lg, lg2, next);
  }

  lemma EnterBand(next: nat, lg: nat, lg2: nat)
    requires next == 2 * Pow2(lg) && Brackets(lg2, next)
    ensures lg2 == lg + 1 && Pow2(lg + 1) == next
  {
    BracketsUnique(lg + 1, lg2, next);
  }

  // ----- spans -----

  /** Objects to move at a time: about 64 KB worth, at least two, at most the configured limit.
      The quotient of the doubles in the source truncates to this integer quotient. */
  function NumMoveSize(size: nat, limit: int): int {
    if size == 0 then 0
    else
      var num := if 65536 / size < 2 then 2 else 65536 / size;
      if num > limit then limit else num
  }

  /** The most objects that make up 64 KB, but at least two and at most the limit, which counts more. */
  lemma MovesAbout64K(size: nat, limit: int)
    requires size > 0
    ensures var n := NumMoveSize(size, limit);
            && n <= limit && (limit < 2 ==> n == limit) && (limit >= 2 ==> n >= 2)
            && (n > 2 ==> n * size <= 65536) && (n < limit ==> (n + 1) * size > 65536)
  {
    DivBounds(65536, size);
    var q := 65536 / size;
    if q < 2 { MulMono(q + 1, 2 + 1, size); }
    if 0 <= limit <= q { MulMono(limit, q, size); }
  }

  /** At most an eighth of a span of psize bytes is left over. */
  predicate LittleWaste(psize: nat, size: nat)
    requires size > 0
  {
    psize % size <= psize / 8
  }

  /** Objects to move, over four, as C divides: towards zero. */
  function BlocksToMove(size: nat, limit: int): int {
    var n := NumMoveSize(size, limit);
    if n >= 0 then n / 4 else -(-n / 4)
  }

  const WORD := 0x1_0000_0000_0000_0000

  /** A count converted to size_t. */
  function AsSize(n: int): nat { n % WORD }

  /** The test that ends the outer loop compares unsigned. */
  predicate HoldsEnough(psize: nat, size: nat, blocks: int)
    requires size > 0
  {
    psize / size >= AsSize(blocks)
  }

  /** psize is the smallest whole number of pages with little waste and enough objects. */
  ghost predicate BestSpan(psize: nat, size: nat, blocks: int)
    requires size > 0
  {
    && psize > 0 && psize % PAGE_SIZE == 0 && LittleWaste(psize, size) && HoldsEnough(psize, size, blocks)
    && forall k: nat :: 0 < k * PAGE_SIZE < psize ==>
       !(LittleWaste(k * PAGE_SIZE, size) && HoldsEnough(k * PAGE_SIZE, size, blocks))
  }

  lemma EnoughBlocks(psize: nat, size: nat, blocks: nat)
    requires size > 0 && psize >= blocks * size
    ensures psize / size >= blocks
  {
    DivBounds(psize, size);
    if psize / size < blocks { MulMono(psize / size + 1, blocks, size); }
  }

  /** From some number of bytes on, every span is good. */
  lemma SpanBound(size: nat, blocks: nat)
    requires size > 0 && blocks < WORD
    ensures BoundFor(size, blocks) > 0
    ensures forall p: nat :: p >= BoundFor(size, blocks) ==> LittleWaste(p, size) && HoldsEnough(p, size, blocks)
  {
    var n: nat := if blocks > 8 then blocks else 8;
    MulMono(8, n, size);
    forall p: nat | p >= n * size ensures LittleWaste(p, size) && HoldsEnough(p, size, blocks) {
      EnoughBlocks(p, size, n);
      EighthLeft(p, size);
    }
  }

  function BoundFor(size: nat, blocks: nat): nat {
    (if blocks > 8 then blocks else 8) * size
  }

  lemma EighthLeft(psize: nat, size: nat)
    requires size > 0 && psize >= 8 * size
    ensures LittleWaste(psize, size)
  {
  }

  /** A span with little waste holds at least one object. */
  lemma HoldsOne(psize: nat, size: nat)
    requires size > 0 && psize > 0 && LittleWaste(psize, size)
    ensures psize / size >= 1
  {
    SmallRemainder(psize, size);
    EnoughBlocks(psize, size, 1);
  }

  lemma SmallRemainder(psize: nat, size: nat)
    requires size > 0 && psize > 0 && psize % size <= psize / 8
    ensures psize >= size
  {
  }

  /** The page-growing loops, for a count that is not negative: they stop, at the smallest good span,
      long before psize could wrap around. */
  method SpanBytes(size: nat, blocks: nat) returns (psize: nat)
    requires size > 0 && blocks < WORD
    ensures BestSpan(psize, size, blocks) && psize / size >= 1 && psize < BoundFor(size, blocks) + PAGE_SIZE
  {
    hide LittleWaste, HoldsEnough, BoundFor;
    SpanBound(size, blocks);
    ghost var bound := BoundFor(size, blocks);
    ghost var pages: nat := 0;
    psize := 0;
    while true
      invariant psize == pages * PAGE_SIZE && (pages > 0 ==> psize < bound)
      invariant forall k: nat :: 0 < k <= pages ==>
                !(LittleWaste(k * PAGE_SIZE, size) && HoldsEnough(k * PAGE_SIZE, size, blocks))
      decreases bound - psize
    {
      ghost var before := psize;
      psize, pages := psize + PAGE_SIZE, pages + 1;
      while !LittleWaste(psize, size)
        invariant psize == pages * PAGE_SIZE && 0 < pages
        invariant before < psize < bound + PAGE_SIZE
        invariant forall k: nat :: 0 < k < pages ==>
                  !(LittleWaste(k * PAGE_SIZE, size) && HoldsEnough(k * PAGE_SIZE, size, blocks))
        decreases bound - psize
      {
        psize, pages := psize + PAGE_SIZE, pages + 1;
      }
      if HoldsEnough(psize, size, blocks) { break; }
    }
    HoldsOne(psize, size);
    assert psize % PAGE_SIZE == 0;
  }

  /** With a limit of -4 or less the loop goes on at every page count: the quotient stays below what
      a negative count becomes. */
  lemma NegativeLimitNeverStops(psize: nat, size: nat, limit: int)
    requires 8 <= size <= MAX_SIZE && -0x8000_0000 <= limit <= -4 && psize < WORD
    ensures !HoldsEnough(psize, size, BlocksToMove(size, limit))
  {
    hide NumMoveSize;
    LimitCaps(size, limit);
    DivBounds(psize, size);
    EighthAtMost(psize, size, psize / size);
    SmallNegative(BlocksToMove(size, limit));
  }

  lemma SmallNegative(n: int)
    requires -0x8000_0000 <= n < 0
    ensures AsSize(n) == n + WORD
  {
  }

  /** From a limit of -3 up the count is not negative, and small. */
  lemma BlocksAreFew(size: nat, limit: int)
    requires size > 0 && limit >= -3
    ensures 0 <= BlocksToMove(size, limit) <= 16384
  {
  }

  /** Both loops stop at this number of pages, and psize has not wrapped around. */
  ghost predicate StopsAt(pages: nat, size: nat, blocks: int)
    requires size > 0
  {
    var psize := pages * PAGE_SIZE;
    0 < psize < WORD && LittleWaste(psize, size) && HoldsEnough(psize, size, blocks)
  }

  /** The loops can stop before psize wraps around exactly when the limit is at least -3. */
  lemma LoopStopsIff(size: nat, limit: int)
    requires 8 <= size <= MAX_SIZE && -0x8000_0000 <= limit < 0x8000_0000
    ensures (exists pages: nat :: StopsAt(pages, size, BlocksToMove(size, limit))) <==> limit >= -3
  {
    hide LittleWaste, HoldsEnough, BlocksToMove;
    if limit >= -3 {
      BlocksAreFew(size, limit);
      var blocks := BlocksToMove(size, limit);
      SpanBound(size, blocks);
      SmallBound(size, blocks);
      var k: nat := BoundFor(size, blocks) / PAGE_SIZE + 1;
      assert k * PAGE_SIZE >= BoundFor(size, blocks);
      assert StopsAt(k, size, blocks);
    } else {
      forall k: nat | 0 < k * PAGE_SIZE < WORD ensures !StopsAt(k, size, BlocksToMove(size, limit)) {
        NegativeLimitNeverStops(k * PAGE_SIZE, size, limit);
      }
    }
  }

  lemma SmallBound(size: nat, blocks: nat)
    requires size <= MAX_SIZE && blocks <= 16384
    ensures BoundFor(size, blocks) <= 16384 * MAX_SIZE
  {
    var n: nat := if blocks > 8 then blocks else 8;
    MulMono(n, 16384, size);
    MulMono(size, MAX_SIZE, 16384);
  }

  lemma LimitCaps(size: nat, limit: int)
    requires size > 0 && limit < 2
    ensures NumMoveSize(size, limit) == limit
  {
  }

  lemma EighthAtMost(n: nat, q: nat, x: nat)
    requires q >= 8 && q * x <= n
    ensures 8 * x <= n
  {
    MulMono(8, q, x);
  }

  // ----- the classes -----

  /** Class c serves sizes up to sizes[c] from spans of pages[c] pages; entry 0 is not a class. */
  ghost predicate GoodClass(size: nat, pages: nat, limit: int) {
    && 0 < size <= MAX_SIZE && size % ALIGNMENT == 0 && (size > MAX_SMALL_SIZE ==> size % 128 == 0)
    && BestSpan(pages * PAGE_SIZE, size, BlocksToMove(size, limit))
    && (pages * PAGE_SIZE) / size >= 1
  }

  ghost predicate Increasing(sizes: seq<nat>) {
    forall c, d :: 0 <= c < d < |sizes| ==> sizes[c] < sizes[d]
  }

  ghost predicate Classes(sizes: seq<nat>, pages: seq<nat>, limit: int) {
    && |sizes| == |pages| >= 1 && sizes[0] == 0 && Increasing(sizes)
    && forall c :: 1 <= c < |sizes| ==> GoodClass(sizes[c], pages[c], limit)
  }

  lemma AddClass(sizes: seq<nat>, pages: seq<nat>, size: nat, my: nat, limit: int)
    requires Classes(sizes, pages, limit) && GoodClass(size, my, limit) && sizes[|sizes| - 1] < size
    ensures Classes(sizes + [size], pages + [my], limit)
  {
    var s2, p2 := sizes + [size], pages + [my];
    forall c | 1 <= c < |s2| ensures GoodClass(s2[c], p2[c], limit) {
      if c < |sizes| { assert GoodClass(sizes[c], pages[c], limit); }
    }
  }

  lemma MergeClass(sizes: seq<nat>, pages: seq<nat>, size: nat, limit: int)
    requires Classes(sizes, pages, limit) && |sizes| > 1 && sizes[|sizes| - 1] < size
    requires GoodClass(size, pages[|pages| - 1], limit)
    ensures Classes(sizes[|sizes| - 1 := size], pages, limit)
  {
    var s2 := sizes[|sizes| - 1 := size];
    forall c | 1 <= c < |s2| ensures GoodClass(s2[c], pages[c], limit) {
      if c < |sizes| - 1 { assert GoodClass(sizes[c], pages[c], limit); }
    }
  }

  ghost predicate VisitedSize(size: nat, lg: nat) {
    && 0 < size <= MAX_SIZE && (size >= 128 ==> Brackets(lg, size))
    && size % AlignmentFor(size, lg) == 0 && size % ALIGNMENT == 0 && (size > MAX_SMALL_SIZE ==> size % 128 == 0)
  }

  // ----- which sizes are classes -----

  /** The exponent that brackets n. */
  function Lg(n: nat): nat {
    if n < 2 then 0 else 1 + Lg(n / 2)
  }

  lemma {:induction false} LgBrackets(n: nat)
    requires n > 0
    ensures Brackets(Lg(n), n)
  {
    if n >= 2 { LgBrackets(n / 2); }
  }

  /** The loop over sizes comes by size v. */
  ghost predicate Visited(v: nat) {
    VisitedSize(v, Lg(v))
  }

  /** The next size it comes by. */
  ghost function NextOf(v: nat): nat {
    v + AlignmentFor(v, Lg(v))
  }

  lemma VisitedLg(size: nat, lg: nat)
    requires VisitedSize(size, lg)
    ensures Visited(size) && AlignmentFor(size, lg) == AlignmentFor(size, Lg(size))
  {
    LgBrackets(size);
    if size >= 128 { BracketsUnique(lg, Lg(size), size); }
  }

  /** No visited size lies between a visited size and the next one. */
  lemma NoneBetween(u: nat, v: nat)
    requires Visited(u) && Visited(v) && u < v
    ensures NextOf(u) <= v
  {
    hide Pow2, Lg;
    LgBrackets(u);
    LgBrackets(v);
    if u >= 128 {
      BandGap(u, Lg(u), v, Lg(v));
    } else {
      SmallGap(u, v);
    }
  }

  lemma SmallGap(u: nat, v: nat)
    requires Visited(u) && Visited(v) && u < v && u < 128
    ensures NextOf(u) <= v
  {
    hide Lg, Pow2;
  }

  lemma BandGap(u: nat, lg: nat, v: nat, lg2: nat)
    requires VisitedSize(u, lg) && VisitedSize(v, lg2) && 128 <= u < v
    ensures u + AlignmentFor(u, lg) <= v
  {
    hide Pow2, Brackets;
    var a, b := AlignmentFor(u, lg), Pow2(lg);
    LgRange(u, lg);
    AlignmentTable(lg);
    BandOf(u, lg);
    NextMultiple(u, a, 2 * b);
    if v < 2 * b {
      SameBand(u, v, lg, lg2);
      NextMultiple(u, a, v);
    }
  }

  lemma BandOf(u: nat, lg: nat)
    requires Brackets(lg, u)
    ensures Pow2(lg) <= u < 2 * Pow2(lg)
  {
  }

  lemma SameBand(u: nat, v: nat, lg: nat, lg2: nat)
    requires Brackets(lg, u) && u < v < 2 * Pow2(lg) && Brackets(lg2, v)
    ensures lg2 == lg
  {
    BracketsUnique(lg, lg2, v);
  }

  /** Size v needs spans of so many pages, and they hold as many objects as with the given size. */
  ghost predicate SameSpan(v: nat, size: nat, pages: nat, limit: int)
    requires size > 0
  {
    v > 0 && BestSpan(pages * PAGE_SIZE, v, BlocksToMove(v, limit)) && (pages * PAGE_SIZE) / v ==
      (pages * PAGE_SIZE) / size
  }

  /** Each class is a visited size, and every visited size it serves has the same spans with as many objects. */
  ghost predicate Grouped(sizes: seq<nat>, pages: seq<nat>, limit: int) {
    && |sizes| == |pages| >= 1 && (forall c :: 1 <= c < |sizes| ==> Visited(sizes[c]))
    && (forall c, v :: 1 <= c < |sizes| && sizes[c - 1] < v <= sizes[c] && Visited(v) ==>
          sizes[c] > 0 && SameSpan(v, sizes[c], pages[c], limit))
  }

  /** The size after the last one of a class does not: it needs other spans, or gets another number of objects. */
  ghost predicate Separated(sizes: seq<nat>, pages: seq<nat>, limit: int) {
    |sizes| == |pages| && forall c :: 1 <= c < |sizes| - 1 ==> Apart(sizes, pages, limit, c)
  }

  ghost predicate Apart(sizes: seq<nat>, pages: seq<nat>, limit: int, c: nat)
    requires |sizes| == |pages| && c < |sizes|
  {
    sizes[c] > 0 && !SameSpan(NextOf(sizes[c]), sizes[c], pages[c], limit)
  }

  /** The size last visited, and the one to visit. */
  ghost predicate Following(sizes: seq<nat>, size: nat) {
    sizes != [] && size == if |sizes| == 1 then ALIGNMENT else NextOf(sizes[|sizes| - 1])
  }

  lemma BestUnique(p: nat, q: nat, size: nat, blocks: int)
    requires size > 0 && BestSpan(p * PAGE_SIZE, size, blocks) && BestSpan(q * PAGE_SIZE, size, blocks)
    ensures p == q
  {
    hide LittleWaste, HoldsEnough;
  }

  lemma GroupNew(sizes: seq<nat>, pages: seq<nat>, size: nat, my: nat, limit: int)
    requires Grouped(sizes, pages, limit) && Separated(sizes, pages, limit) && Following(sizes, size) && Visited(size)
    requires sizes[0] == 0 && sizes[|sizes| - 1] < size && BestSpan(my * PAGE_SIZE, size, BlocksToMove(size, limit))
    requires |sizes| > 1 ==> !(my == pages[|pages| - 1] && (my * PAGE_SIZE) / size == Objects(sizes, pages))
    ensures Grouped(sizes + [size], pages + [my], limit) && Separated(sizes + [size], pages + [my], limit)
  {
    hide VisitedSize, BestSpan, AlignmentFor, BlocksToMove, Lg;
    var s2, p2, n := sizes + [size], pages + [my], |sizes|;
    forall c, v | 1 <= c < |s2| && s2[c - 1] < v <= s2[c] && Visited(v)
      ensures s2[c] > 0 && SameSpan(v, s2[c], p2[c], limit)
    {
      if c == n {
        if n > 1 { NoneBetween(sizes[n - 1], v); } else { FirstVisited(v); }
        assert v == size;
      }
    }
    forall c | 1 <= c < |s2| - 1 ensures Apart(s2, p2, limit, c) {
      if c == n - 1 {
        FirstVisited(sizes[c]);
        if SameSpan(size, sizes[c], pages[c], limit) { BestUnique(my, pages[c], size, BlocksToMove(size, limit)); }
      } else {
        assert Apart(sizes, pages, limit, c);
      }
    }
  }

  lemma FirstVisited(v: nat)
    requires Visited(v)
    ensures v >= ALIGNMENT
  {
    hide AlignmentFor, Lg;
  }

  lemma GroupMerge(sizes: seq<nat>, pages: seq<nat>, size: nat, limit: int)
    requires Grouped(sizes, pages, limit) && Separated(sizes, pages, limit) && Following(sizes, size) && Visited(size)
    requires |sizes| > 1 && sizes[|sizes| - 1] < size
    requires BestSpan(pages[|pages| - 1] * PAGE_SIZE, size, BlocksToMove(size, limit))
    requires (pages[|pages| - 1] * PAGE_SIZE) / size == Objects(sizes, pages)
    ensures Grouped(sizes[|sizes| - 1 := size], pages, limit) && Separated(sizes[|sizes| - 1 := size], pages, limit)
  {
    hide VisitedSize, BestSpan, AlignmentFor, BlocksToMove, Lg;
    var n := |sizes| - 1;
    var s2 := sizes[n := size];
    forall c, v | 1 <= c < |s2| && s2[c - 1] < v <= s2[c] && Visited(v)
      ensures s2[c] > 0 && SameSpan(v, s2[c], pages[c], limit)
    {
      if c == n {
        if v > sizes[n] {
          NoneBetween(sizes[n], v);
        } else {
          assert SameSpan(v, sizes[n], pages[n], limit);
        }
      }
    }
    forall c | 1 <= c < |s2| - 1 ensures Apart(s2, pages, limit, c) {
      assert Apart(sizes, pages, limit, c);
    }
  }

  /** The least number of pages, at least p, with little waste and enough objects. */
  function PagesFrom(p: nat, size: nat, blocks: nat): (r: nat)
    requires p > 0 && size > 0 && blocks < WORD
    ensures r >= p && LittleWaste(r * PAGE_SIZE, size) && HoldsEnough(r * PAGE_SIZE, size, blocks)
    ensures forall k :: p <= k < r ==> !(LittleWaste(k * PAGE_SIZE, size) && HoldsEnough(k * PAGE_SIZE, size, blocks))
    decreases if p * PAGE_SIZE < BoundFor(size, blocks) then BoundFor(size, blocks) - p * PAGE_SIZE else 0
  {
    SpanBound(size, blocks);
    if LittleWaste(p * PAGE_SIZE, size) && HoldsEnough(p * PAGE_SIZE, size, blocks) then p
    else PagesFrom(p + 1, size, blocks)
  }

  /** How many classes the loop makes from a size on, given the size and the pages of the class made last. */
  ghost function ClassCount(size: nat, lastSize: nat, lastPages: nat, limit: int): nat
    requires limit >= -3
    decreases if size > MAX_SIZE then 0 else MAX_SIZE + 1 - size
  {
    if size > MAX_SIZE || size == 0 || AlignmentFor(size, Lg(size)) == 0 then 0
    else
      BlocksAreFew(size, limit);
      var my := PagesFrom(1, size, BlocksToMove(size, limit));
      var same := lastSize > 0 && my == lastPages && (my * PAGE_SIZE) / size == (lastPages * PAGE_SIZE) / lastSize;
      (if same then 0 else 1) + ClassCount(NextOf(size), size, my, limit)
  }

  /** One turn of the loop, counted. */
  lemma CountStep(size: nat, my: nat, lastSize: nat, lastPages: nat, limit: int)
    requires limit >= -3 && 0 < size <= MAX_SIZE && AlignmentFor(size, Lg(size)) > 0
    requires BestSpan(my * PAGE_SIZE, size, BlocksToMove(size, limit))
    ensures var same :=
              lastSize > 0 && my == lastPages && (my * PAGE_SIZE) / size == (lastPages * PAGE_SIZE) / lastSize;
            ClassCount(size, lastSize, lastPages, limit) ==
            (if same then 0 else 1) + ClassCount(NextOf(size), size, my, limit)
  {
    hide AlignmentFor, BlocksToMove, Lg, LittleWaste, HoldsEnough;
    BlocksAreFew(size, limit);
    var p := PagesFrom(1, size, BlocksToMove(size, limit));
    FromIsBest(p, size, BlocksToMove(size, limit));
    BestUnique(p, my, size, BlocksToMove(size, limit));
  }

  lemma FromIsBest(p: nat, size: nat, blocks: nat)
    requires p > 0 && size > 0 && LittleWaste(p * PAGE_SIZE, size) && HoldsEnough(p * PAGE_SIZE, size, blocks)
    requires forall k :: 1 <= k < p ==> !(LittleWaste(k * PAGE_SIZE, size) && HoldsEnough(k * PAGE_SIZE, size, blocks))
    ensures BestSpan(p * PAGE_SIZE, size, blocks)
  {
    hide LittleWaste, HoldsEnough;
  }

  /** The loop over sizes: starts at 8, ends at the maximum exactly, and makes each size visited
      a class of its own or merges it into the last one, exactly when it needs spans of as many pages and
      gets as many objects in them. The check that a size is a multiple of its alignment holds at every
      size. */
  method ComputeClasses(limit: int) returns (sizes: seq<nat>, pages: seq<nat>)
    requires limit >= -3
    ensures Classes(sizes, pages, limit) && |sizes| > 1 && sizes[|sizes| - 1] == MAX_SIZE
    ensures Grouped(sizes, pages, limit) && Separated(sizes, pages, limit)
    ensures |sizes| == 1 + ClassCount(ALIGNMENT, 0, 0, limit)
  {
    hide Classes, GoodClass, BestSpan, VisitedSize, Brackets, AlignmentFor, Grouped, Separated, Following, ClassCount,
         NextOf, Objects, Visited, BlocksToMove, Lg;
    sizes, pages := [0], [0];
    NoClasses(limit);
    NoGroups(limit);
    var size := ALIGNMENT;
    ghost var lg := FirstSize();
    ghost var last := false;
    while size <= MAX_SIZE
      invariant Classes(sizes, pages, limit) && |sizes| == |pages| >= 1 && sizes[0] == 0
      invariant Grouped(sizes, pages, limit) && Separated(sizes, pages, limit)
      invariant |sizes| + ClassCount(size, sizes[|sizes| - 1], pages[|pages| - 1], limit) ==
                1 + ClassCount(8, 0, 0, limit)
      invariant if last then size > MAX_SIZE && |sizes| > 1 && sizes[|sizes| - 1] == MAX_SIZE
                else VisitedSize(size, lg) && size <= MAX_SIZE && sizes[|sizes| - 1] < size && Following(sizes, size)
      decreases MAX_SIZE - size
    {
      var alignment := AlignmentForSize(size);
      VisitedAlignment(size, lg, alignment);
      VisitedLg(size, lg);
      assert size % alignment == 0;
      BlocksAreFew(size, limit);
      var psize := SpanBytes(size, BlocksToMove(size, limit));
      var my := psize / PAGE_SIZE;
      WholePages(psize, size, BlocksToMove(size, limit));
      SpanIsGood(size, lg, psize, limit);
      CountStep(size, my, sizes[|sizes| - 1], pages[|pages| - 1], limit);
      ObjectsIs(sizes, pages);
      LastPositive(sizes, pages, limit);
      if |sizes| > 1 && my == pages[|pages| - 1] && (my * PAGE_SIZE) / size == Objects(sizes, pages) {
        MergeClass(sizes, pages, size, limit);
        GroupMerge(sizes, pages, size, limit);
        sizes := sizes[|sizes| - 1 := size];
      } else {
        AddClass(sizes, pages, size, my, limit);
        GroupNew(sizes, pages, size, my, limit);
        sizes, pages := sizes + [size], pages + [my];
      }
      NextIs(sizes, size, alignment);
      if size == MAX_SIZE {
        last := true;
      } else {
        lg := NextVisited(size, lg);
      }
      size := size + alignment;
    }
    CountEnds(size, sizes[|sizes| - 1], pages[|pages| - 1], limit);
  }

  lemma NoGroups(limit: int)
    ensures Grouped([0], [0], limit) && Separated([0], [0], limit) && Following([0], ALIGNMENT)
  {
  }

  lemma WholePages(psize: nat, size: nat, blocks: int)
    requires size > 0 && BestSpan(psize, size, blocks)
    ensures psize / PAGE_SIZE * PAGE_SIZE == psize
  {
  }

  lemma ObjectsIs(sizes: seq<nat>, pages: seq<nat>)
    requires |sizes| == |pages| > 0
    ensures sizes[|sizes| - 1] > 0 ==>
              Objects(sizes, pages) == (pages[|pages| - 1] * PAGE_SIZE) / sizes[|sizes| - 1]
  {
  }

  lemma LastPositive(sizes: seq<nat>, pages: seq<nat>, limit: int)
    requires Classes(sizes, pages, limit)
    ensures sizes[|sizes| - 1] > 0 <==> |sizes| > 1
  {
    hide GoodClass;
  }

  lemma NextIs(sizes: seq<nat>, size: nat, alignment: nat)
    requires |sizes| > 1 && sizes[|sizes| - 1] == size && alignment == AlignmentFor(size, Lg(size))
    ensures NextOf(size) == size + alignment && Following(sizes, size + alignment)
  {
    hide AlignmentFor, Lg;
  }

  lemma CountEnds(size: nat, lastSize: nat, lastPages: nat, limit: int)
    requires size > MAX_SIZE && limit >= -3
    ensures ClassCount(size, lastSize, lastPages, limit) == 0
  {
  }

  function Objects(sizes: seq<nat>, pages: seq<nat>): nat
    requires |sizes| == |pages| > 0
  {
    var c := |sizes| - 1;
    if sizes[c] == 0 then 0 else (pages[c] * PAGE_SIZE) / sizes[c]
  }

  lemma NoClasses(limit: int)
    ensures Classes([0], [0], limit)
  {
  }

  lemma FirstSize() returns (lg: nat)
    ensures VisitedSize(ALIGNMENT, lg)
  {
    lg := 0;
  }

  lemma VisitedAlignment(size: nat, lg: nat, alignment: nat)
    requires VisitedSize(size, lg)
    requires exists k :: (128 <= size <= MAX_SIZE ==> Brackets(k, size)) && alignment == AlignmentFor(size, k)
    ensures alignment == AlignmentFor(size, lg) > 0 && size % alignment == 0
  {
    Pow2Table();
    var k :| (128 <= size <= MAX_SIZE ==> Brackets(k, size)) && alignment == AlignmentFor(size, k);
    if size >= 128 {
      BracketsUnique(k, lg, size);
      LgRange(size, lg);
      AlignmentTable(lg);
    }
  }

  lemma SpanIsGood(size: nat, lg: nat, psize: nat, limit: int)
    requires VisitedSize(size, lg) && BestSpan(psize, size, BlocksToMove(size, limit)) && psize / size >= 1
    ensures GoodClass(size, psize / PAGE_SIZE, limit)
  {
    assert psize / PAGE_SIZE * PAGE_SIZE == psize;
  }

  lemma NextVisited(size: nat, lg: nat) returns (lg2: nat)
    requires VisitedSize(size, lg) && size < MAX_SIZE
    ensures VisitedSize(size + AlignmentFor(size, lg), lg2)
  {
    var next := size + AlignmentFor(size, lg);
    lg2 := SomeBracket(next);
    NextSize(size, lg, lg2);
  }

  lemma {:induction false} SomeBracket(n: nat) returns (k: nat)
    ensures n > 0 ==> Brackets(k, n)
  {
    if n < 2 {
      k := 0;
    } else {
      var j := SomeBracket(n / 2);
      k := j + 1;
    }
  }

  // ----- from size to class -----

  /** Index into the class array: steps of 8 up to 1024, steps of 128 above. */
  function ClassIndex(s: nat): (i: nat)
    requires s <= MAX_SIZE
    ensures i < CLASS_ARRAY_SIZE
  {
    if s <= MAX_SMALL_SIZE then (s + 7) / 8 else (s + 127 + 120 * 128) / 128
  }

  /** The largest size with a given index. */
  function IndexSize(i: nat): nat {
    if i <= 128 then 8 * i else 128 * (i - 120)
  }

  /** Rounding a size up to the largest size of its index does not move it past a class border. */
  lemma IndexRoundsUp(s: nat, border: nat)
    requires s <= MAX_SIZE && border % 8 == 0 && (border > MAX_SMALL_SIZE ==> border % 128 == 0)
    ensures s <= border <==> IndexSize(ClassIndex(s)) <= border
  {
  }

  /** c is the smallest class that can hold size s. */
  ghost predicate LeastClass(sizes: seq<nat>, s: nat, c: nat) {
    1 <= c < |sizes| && s <= sizes[c] && forall d :: 1 <= d < c ==> sizes[d] < s
  }

  /** The first n entries of the class array are right for the largest sizes they stand for. */
  ghost predicate Filled(sizes: seq<nat>, entries: seq<nat>, n: nat)
    requires n <= |entries|
  {
    forall i :: 0 <= i < n ==> LeastClass(sizes, IndexSize(i), entries[i])
  }

  lemma LeastClassAt(sizes: seq<nat>, pages: seq<nat>, limit: int, s: nat, c: nat)
    requires Classes(sizes, pages, limit) && 1 <= c < |sizes| && s <= sizes[c] && (c > 1 ==> sizes[c - 1] < s)
    ensures s <= MAX_SIZE && LeastClass(sizes, IndexSize(ClassIndex(s)), c)
  {
    assert GoodClass(sizes[c], pages[c], limit);
    IndexRoundsUp(s, sizes[c]);
    forall d | 1 <= d < c ensures sizes[d] < IndexSize(ClassIndex(s)) {
      assert GoodClass(sizes[d], pages[d], limit);
      assert sizes[d] <= sizes[c - 1];
      IndexRoundsUp(s, sizes[d]);
    }
  }

  /** The mapping loops: every class c writes c at the index of every multiple of 8 it serves. */
  method FillClassArray(sizes: seq<nat>, ghost pages: seq<nat>, ghost limit: int) returns (entries: seq<nat>)
    requires Classes(sizes, pages, limit) && |sizes| > 1 && sizes[|sizes| - 1] == MAX_SIZE
    ensures |entries| == CLASS_ARRAY_SIZE && Filled(sizes, entries, CLASS_ARRAY_SIZE)
  {
    hide Classes, GoodClass, LeastClass, Filled, ClassIndex, IndexSize;
    entries := seq(CLASS_ARRAY_SIZE, _ => 0);
    var nextSize, c := 0, 1;
    ghost var done := 0;
    NothingFilled(sizes, entries);
    ClassBorders(sizes, pages, limit, 0);
    while c < |sizes|
      invariant 1 <= c <= |sizes| && |entries| == CLASS_ARRAY_SIZE && done <= CLASS_ARRAY_SIZE
      invariant nextSize == (if c == 1 then 0 else sizes[c - 1] + ALIGNMENT)
      invariant nextSize % 8 == 0 && nextSize <= MAX_SIZE + 8
      invariant done == (if nextSize == 0 then 0 else ClassIndex(nextSize - 8) + 1)
      invariant Filled(sizes, entries, done)
    {
      var s, maxSize := nextSize, sizes[c];
      ClassBorders(sizes, pages, limit, c);
      while s <= maxSize
        invariant nextSize <= s <= maxSize + 8 && s % 8 == 0 && |entries| == CLASS_ARRAY_SIZE
        invariant done <= CLASS_ARRAY_SIZE
        invariant done == (if s == 0 then 0 else ClassIndex(s - 8) + 1)
        invariant Filled(sizes, entries, done)
        decreases maxSize + 8 - s
      {
        LeastClassAt(sizes, pages, limit, s, c);
        IndexAdvances(s);
        WriteEntry(sizes, entries, done, ClassIndex(s), c);
        entries := entries[ClassIndex(s) := c];
        done := ClassIndex(s) + 1;
        s := s + ALIGNMENT;
      }
      nextSize := maxSize + ALIGNMENT;
      c := c + 1;
    }
    LastIndex();
  }

  lemma NothingFilled(sizes: seq<nat>, entries: seq<nat>)
    ensures Filled(sizes, entries, 0)
  {
  }

  /** Writing the entry at or just below the filled part keeps it filled. */
  lemma WriteEntry(sizes: seq<nat>, entries: seq<nat>, done: nat, i: nat, c: nat)
    requires done <= |entries| && i < |entries| && i <= done <= i + 1 && Filled(sizes, entries, done)
    requires LeastClass(sizes, IndexSize(i), c)
    ensures Filled(sizes, entries[i := c], i + 1)
  {
  }

  lemma LastIndex()
    ensures ClassIndex(MAX_SIZE) == CLASS_ARRAY_SIZE - 1
  {
  }

  lemma ClassBorders(sizes: seq<nat>, pages: seq<nat>, limit: int, c: nat)
    requires Classes(sizes, pages, limit) && c < |sizes|
    ensures sizes[c] <= MAX_SIZE && sizes[c] % 8 == 0 && (c > 0 ==> sizes[c - 1] < sizes[c] && sizes[c - 1] % 8 == 0)
  {
    if c > 0 { assert GoodClass(sizes[c], pages[c], limit); }
    if c > 1 { assert GoodClass(sizes[c - 1], pages[c - 1], limit); }
  }

  lemma IndexAdvances(s: nat)
    requires s <= MAX_SIZE && s % 8 == 0
    ensures s == 0 ==> ClassIndex(s) == 0
    ensures s >= 8 ==> ClassIndex(s - 8) <= ClassIndex(s) <= ClassIndex(s - 8) + 1
  {
  }

  /** The size map after Init. */
  class SizeMapTables {
    var classToSize: seq<nat>
    var classToPages: seq<nat>
    var classArray: seq<nat>
    var numObjectsToMove: seq<int>

    /** What holds once the class-count check has passed. */
    ghost predicate Valid(limit: int)
      reads this
    {
      && Classes(classToSize, classToPages, limit) && |classToSize| == NUM_CLASSES
      && classToSize[NUM_CLASSES - 1] == MAX_SIZE
      && |classArray| == CLASS_ARRAY_SIZE && Filled(classToSize, classArray, CLASS_ARRAY_SIZE)
      && |numObjectsToMove| == NUM_CLASSES
      && forall c :: 1 <= c < NUM_CLASSES ==> numObjectsToMove[c] == NumMoveSize(classToSize[c], limit)
    }

    constructor ()
    {
      classToSize, classToPages, classArray, numObjectsToMove := [], [], [], [];
    }

    /** SizeMap::Init: false stands for the crash when the number of classes is not the expected
        one; the double-check loop that follows the mapping never crashes (see SizeClass). */
    method Init(limit: int) returns (ok: bool)
      requires limit >= -3
      modifies this
      ensures ok ==> Valid(limit)
      ensures Classes(classToSize, classToPages, limit) && ok == (|classToSize| == NUM_CLASSES)
      ensures Grouped(classToSize, classToPages, limit) && Separated(classToSize, classToPages, limit)
      ensures ok <==> 1 + ClassCount(ALIGNMENT, 0, 0, limit) == NUM_CLASSES
    {
      hide Classes, Grouped, Separated, ClassCount, Filled, NumMoveSize;
      classToSize, classToPages := ComputeClasses(limit);
      ok := |classToSize| == NUM_CLASSES;
      if ok {
        classArray := FillClassArray(classToSize, classToPages, limit);
        numObjectsToMove := seq(NUM_CLASSES, c requires 0 <= c < NUM_CLASSES && |classToSize| == NUM_CLASSES reads this
                                             => NumMoveSize(classToSize[c], limit));
      }
    }

    /** The class of every size, not only of the sizes Init samples, is the least that holds it. */
    method SizeClass(size: nat, ghost limit: int) returns (c: nat)
      requires Valid(limit) && size <= MAX_SIZE
      ensures LeastClass(classToSize, size, c) && c < NUM_CLASSES
    {
      c := classArray[ClassIndex(size)];
      assert LeastClass(classToSize, IndexSize(ClassIndex(size)), c);
      forall d | 1 <= d <= c ensures size <= classToSize[d] <==> IndexSize(ClassIndex(size)) <= classToSize[d] {
        ClassIsGood(classToSize, classToPages, limit, d);
        IndexRoundsUp(size, classToSize[d]);
      }
    }
  }

  lemma ClassIsGood(sizes: seq<nat>, pages: seq<nat>, limit: int, c: nat)
    requires Classes(sizes, pages, limit) && 1 <= c < |sizes|
    ensures GoodClass(sizes[c], pages[c], limit)
  {
  }
}
