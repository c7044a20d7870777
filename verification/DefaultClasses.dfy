/** The default build: with the default transfer limit the loop makes exactly the number of classes the
    check expects, so Init succeeds. */
module DefaultClasses {
  import opened Basics
  import opened SizeMap

  const LIMIT: int := 32768

  /** p is the first number of pages, of at most eight, that serves size. */
  ghost predicate FirstGood(size: nat, p: nat)
    requires size > 0
  {
    && 1 <= p <= 8 && Good(size, p)
    && (p > 1 ==> !Good(size, 1)) && (p > 2 ==> !Good(size, 2)) && (p > 3 ==> !Good(size, 3))
    && (p > 4 ==> !Good(size, 4)) && (p > 5 ==> !Good(size, 5)) && (p > 6 ==> !Good(size, 6))
    && (p > 7 ==> !Good(size, 7))
  }

  ghost predicate Good(size: nat, p: nat)
    requires size > 0
  {
    (p * PAGE_SIZE) % size <= (p * PAGE_SIZE) / 8 && (p * PAGE_SIZE) / size >= Blocks(size)
  }

  /** A quarter of the objects moved at a time under the default limit. */
  function Blocks(size: nat): nat
    requires size > 0
  {
    if size > 32768 then 0 else 65536 / size / 4
  }

  lemma BlocksIs(size: nat)
    requires 8 <= size
    ensures BlocksToMove(size, LIMIT) == Blocks(size) && AsSize(Blocks(size)) == Blocks(size)
  {
  }

  lemma FirstGoodIsBest(size: nat, p: nat)
    requires 8 <= size && FirstGood(size, p)
    ensures BestSpan(p * PAGE_SIZE, size, BlocksToMove(size, LIMIT))
  {
    hide Blocks, BlocksToMove, AsSize;
    BlocksIs(size);
    FromIsBest(p, size, Blocks(size));
  }

  /** A size of whole pages, and so large that no count is asked for, gets spans of just those pages. */
  lemma WholePagesAreBest(size: nat, q: nat)
    requires size == q * PAGE_SIZE && q >= 5
    ensures BestSpan(q * PAGE_SIZE, size, BlocksToMove(size, LIMIT))
  {
    hide HoldsEnough, BlocksToMove;
    BlocksIs(size);
    OneObject(size);
    forall k | 1 <= k < q ensures !LittleWaste(k * PAGE_SIZE, size) {
      TooSmall(k * PAGE_SIZE, size);
    }
    FromIsBest(q, size, Blocks(size));
  }

  lemma OneObject(size: nat)
    requires size > 32768
    ensures LittleWaste(size, size) && HoldsEnough(size, size, Blocks(size))
  {
  }

  lemma TooSmall(n: nat, size: nat)
    requires 0 < n < size
    ensures !LittleWaste(n, size)
  {
  }

  /** The alignment at a size, given the power of two below it. */
  lemma AlignmentIs(size: nat, lg: nat, a: nat)
    requires 8 <= size <= MAX_SIZE && (size >= 128 ==> 7 <= lg <= 18 && Pow2(lg) <= size < 2 * Pow2(lg))
    requires a == if size < 16 then 8 else if size < 128 then 16 else if Pow2(lg) > 65536 then 8192 else Pow2(lg) / 8
    ensures AlignmentFor(size, Lg(size)) == a && NextOf(size) == size + a
  {
    hide Pow2, Lg;
    LgBrackets(size);
    if size >= 128 { BracketsUnique(lg, Lg(size), size); }
  }

  /** One visited size, with its alignment and pages. */
  lemma Visit(size: nat, lg: nat, a: nat, p: nat, prev: nat, prevPages: nat)
    requires 8 <= size <= MAX_SIZE && (size >= 128 ==> 7 <= lg <= 18 && Pow2(lg) <= size < 2 * Pow2(lg))
    requires a == if size < 16 then 8 else if size < 128 then 16 else if Pow2(lg) > 65536 then 8192 else Pow2(lg) / 8
    requires a > 0 && (FirstGood(size, p) || (p >= 5 && size == p * PAGE_SIZE))
    ensures var same := prev > 0 && p == prevPages && (p * PAGE_SIZE) / size == (prevPages * PAGE_SIZE) / prev;
            ClassCount(size, prev, prevPages, LIMIT) == (if same then 0 else 1) + ClassCount(size + a, size, p, LIMIT)
  {
    hide FirstGood, ClassCount, BestSpan, BlocksToMove, Pow2, Lg, AlignmentFor;
    AlignmentIs(size, lg, a);
    if FirstGood(size, p) { FirstGoodIsBest(size, p); } else { WholePagesAreBest(size, p); }
    CountStep(size, p, prev, prevPages, LIMIT);
  }

  lemma From262144()
    ensures ClassCount(262144, 253952, 31, LIMIT) == 1
  {
    hide ClassCount, Pow2;
    Pow2Table();
    CountEnds(270336, 262144, 32, LIMIT);
    Visit(262144, 18, 8192, 32, 253952, 31);
  }

  lemma From131072()
    ensures ClassCount(131072, 122880, 15, LIMIT) == 17
  {
    hide ClassCount, Pow2;
    Pow2Table();
    From262144();
    Visit(253952, 17, 8192, 31, 245760, 30);
    Visit(245760, 17, 8192, 30, 237568, 29);
    Visit(237568, 17, 8192, 29, 229376, 28);
    Visit(229376, 17, 8192, 28, 221184, 27);
    Visit(221184, 17, 8192, 27, 212992, 26);
    Visit(212992, 17, 8192, 26, 204800, 25);
    Visit(204800, 17, 8192, 25, 196608, 24);
    Visit(196608, 17, 8192, 24, 188416, 23);
    Visit(188416, 17, 8192, 23, 180224, 22);
    Visit(180224, 17, 8192, 22, 172032, 21);
    Visit(172032, 17, 8192, 21, 163840, 20);
    Visit(163840, 17, 8192, 20, 155648, 19);
    Visit(155648, 17, 8192, 19, 147456, 18);
    Visit(147456, 17, 8192, 18, 139264, 17);
    Visit(139264, 17, 8192, 17, 131072, 16);
    Visit(131072, 17, 8192, 16, 122880, 15);
  }

  lemma From65536()
    ensures ClassCount(65536, 61440, 8, LIMIT) == 24
  {
    hide ClassCount, Pow2;
    Pow2Table();
    From131072();
    Visit(122880, 16, 8192, 15, 114688, 14);
    Visit(114688, 16, 8192, 14, 106496, 13);
    Visit(106496, 16, 8192, 13, 98304, 12);
    Visit(98304, 16, 8192, 12, 90112, 11);
    Visit(90112, 16, 8192, 11, 81920, 10);
    Visit(81920, 16, 8192, 10, 73728, 9);
    Visit(73728, 16, 8192, 9, 65536, 8);
    Visit(65536, 16, 8192, 8, 61440, 8);
  }

  lemma From32768()
    ensures ClassCount(32768, 30720, 4, LIMIT) == 28
  {
    hide ClassCount, Pow2;
    Pow2Table();
    From65536();
    Visit(61440, 15, 4096, 8, 57344, 7);
    Visit(57344, 15, 4096, 7, 53248, 7);
    Visit(53248, 15, 4096, 7, 49152, 6);
    Visit(49152, 15, 4096, 6, 45056, 6);
    Visit(45056, 15, 4096, 6, 40960, 5);
    Visit(40960, 15, 4096, 5, 36864, 5);
    Visit(36864, 15, 4096, 5, 32768, 4);
    Visit(32768, 15, 4096, 4, 30720, 4);
  }

  lemma From16384()
    ensures ClassCount(16384, 15360, 2, LIMIT) == 32
  {
    hide ClassCount, Pow2;
    Pow2Table();
    From32768();
    Visit(30720, 14, 2048, 4, 28672, 4);
    Visit(28672, 14, 2048, 4, 26624, 7);
    Visit(26624, 14, 2048, 7, 24576, 3);
    Visit(24576, 14, 2048, 3, 22528, 3);
    Visit(22528, 14, 2048, 3, 20480, 5);
    Visit(20480, 14, 2048, 5, 18432, 5);
    Visit(18432, 14, 2048, 5, 16384, 2);
    Visit(16384, 14, 2048, 2, 15360, 2);
  }

  lemma From8192()
    ensures ClassCount(8192, 7680, 2, LIMIT) == 37
  {
    hide ClassCount, Pow2;
    Pow2Table();
    From16384();
    Visit(15360, 13, 1024, 2, 14336, 2);
    Visit(14336, 13, 1024, 2, 13312, 5);
    Visit(13312, 13, 1024, 5, 12288, 3);
    Visit(12288, 13, 1024, 3, 11264, 3);
    Visit(11264, 13, 1024, 3, 10240, 4);
    Visit(10240, 13, 1024, 4, 9216, 5);
    Visit(9216, 13, 1024, 5, 8192, 2);
    Visit(8192, 13, 1024, 2, 7680, 2);
  }

  lemma From4096()
    ensures ClassCount(4096, 3840, 2, LIMIT) == 42
  {
    hide ClassCount, Pow2;
    Pow2Table();
    From8192();
    Visit(7680, 12, 512, 2, 7168, 2);
    Visit(7168, 12, 512, 2, 6656, 5);
    Visit(6656, 12, 512, 5, 6144, 3);
    Visit(6144, 12, 512, 3, 5632, 3);
    Visit(5632, 12, 512, 3, 5120, 2);
    Visit(5120, 12, 512, 2, 4608, 3);
    Visit(4608, 12, 512, 3, 4096, 2);
    Visit(4096, 12, 512, 2, 3840, 2);
  }

  lemma From2048()
    ensures ClassCount(2048, 1920, 2, LIMIT) == 48
  {
    hide ClassCount, Pow2;
    Pow2Table();
    From4096();
    Visit(3840, 11, 256, 2, 3584, 2);
    Visit(3584, 11, 256, 2, 3328, 3);
    Visit(3328, 11, 256, 3, 3072, 2);
    Visit(3072, 11, 256, 2, 2816, 3);
    Visit(2816, 11, 256, 3, 2560, 2);
    Visit(2560, 11, 256, 2, 2304, 2);
    Visit(2304, 11, 256, 2, 2048, 2);
    Visit(2048, 11, 256, 2, 1920, 2);
  }

  lemma From1024()
    ensures ClassCount(1024, 960, 2, LIMIT) == 55
  {
    hide ClassCount, Pow2;
    Pow2Table();
    From2048();
    Visit(1920, 10, 128, 2, 1792, 2);
    Visit(1792, 10, 128, 2, 1664, 2);
    Visit(1664, 10, 128, 2, 1536, 2);
    Visit(1536, 10, 128, 2, 1408, 2);
    Visit(1408, 10, 128, 2, 1280, 2);
    Visit(1280, 10, 128, 2, 1152, 2);
    Visit(1152, 10, 128, 2, 1024, 2);
    Visit(1024, 10, 128, 2, 960, 2);
  }

  lemma From512()
    ensures ClassCount(512, 480, 2, LIMIT) == 63
  {
    hide ClassCount, Pow2;
    Pow2Table();
    From1024();
    Visit(960, 9, 64, 2, 896, 2);
    Visit(896, 9, 64, 2, 832, 2);
    Visit(832, 9, 64, 2, 768, 2);
    Visit(768, 9, 64, 2, 704, 2);
    Visit(704, 9, 64, 2, 640, 2);
    Visit(640, 9, 64, 2, 576, 2);
    Visit(576, 9, 64, 2, 512, 2);
    Visit(512, 9, 64, 2, 480, 2);
  }

  lemma From256()
    ensures ClassCount(256, 240, 2, LIMIT) == 71
  {
    hide ClassCount, Pow2;
    Pow2Table();
    From512();
    Visit(480, 8, 32, 2, 448, 2);
    Visit(448, 8, 32, 2, 416, 2);
    Visit(416, 8, 32, 2, 384, 2);
    Visit(384, 8, 32, 2, 352, 2);
    Visit(352, 8, 32, 2, 320, 2);
    Visit(320, 8, 32, 2, 288, 2);
    Visit(288, 8, 32, 2, 256, 2);
    Visit(256, 8, 32, 2, 240, 2);
  }

  lemma From128()
    ensures ClassCount(128, 112, 2, LIMIT) == 79
  {
    hide ClassCount, Pow2;
    Pow2Table();
    From256();
    Visit(240, 7, 16, 2, 224, 2);
    Visit(224, 7, 16, 2, 208, 2);
    Visit(208, 7, 16, 2, 192, 2);
    Visit(192, 7, 16, 2, 176, 2);
    Visit(176, 7, 16, 2, 160, 2);
    Visit(160, 7, 16, 2, 144, 2);
    Visit(144, 7, 16, 2, 128, 2);
    Visit(128, 7, 16, 2, 112, 2);
  }

  lemma Under128()
    ensures ClassCount(8, 0, 0, LIMIT) == 87
  {
    hide ClassCount, Pow2;
    From128();
    Visit(112, 0, 16, 2, 96, 2);
    Visit(96, 0, 16, 2, 80, 2);
    Visit(80, 0, 16, 2, 64, 2);
    Visit(64, 0, 16, 2, 48, 2);
    Visit(48, 0, 16, 2, 32, 2);
    Visit(32, 0, 16, 2, 16, 2);
    Visit(16, 0, 16, 2, 8, 2);
    Visit(8, 0, 8, 2, 0, 0);
  }

  /** SizeMap::Init succeeds with the default limit: the class-count check passes. */
  method InitDefault(tables: SizeMapTables) returns (ok: bool)
    modifies tables
    ensures ok && tables.Valid(LIMIT)
  {
    hide ClassCount, Classes, Grouped, Separated;
    Under128();
    ok := tables.Init(LIMIT);
  }
}
