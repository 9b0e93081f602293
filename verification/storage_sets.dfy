/**
 * The cache building blocks: 32-bit bit helpers, the three cache-set
 * replacement policies and the per-level hit/miss counters.
 *
 * A cache set is a value owned by exactly one slot of its level's set
 * vector; an operation that changes a set returns the new set.
 */
module StorageSets {
  import opened Common

  // ---------------------------------------------------------------------
  // Bit helpers on uint32_t
  // ---------------------------------------------------------------------

  const U32: nat := 0x1_0000_0000

  /** Unsigned 32-bit values (`uint32_t`). */
  type u32 = x: int | 0 <= x < 0x1_0000_0000

  function Pow2(k: nat): (r: nat)
    ensures r >= 1
  {
    if k == 0 then 1 else 2 * Pow2(k - 1)
  }

  /** Bitwise AND, bit by bit from the least significant one. */
  function BitAnd(a: nat, b: nat): (r: nat)
    ensures r <= a && r <= b
  {
    if a == 0 || b == 0 then 0
    else 2 * BitAnd(a / 2, b / 2) + (if a % 2 == 1 && b % 2 == 1 then 1 else 0)
  }

  /** `a >> k`: k halvings. */
  function Shr(a: nat, k: nat): (r: nat)
    ensures r <= a
  {
    if k == 0 then a else Shr(a / 2, k - 1)
  }

  /** `m << k`: k doublings. */
  function Shl(m: nat, k: nat): (r: nat)
  {
    if k == 0 then m else 2 * Shl(m, k - 1)
  }

  /** The low w bits of y (`y & (2^w - 1)` once BitAndLowMask is known). */
  function LowBits(y: nat, w: nat): (r: nat)
  {
    if w == 0 then 0 else 2 * LowBits(y / 2, w - 1) + y % 2
  }

  lemma Pow2Values()
    ensures Pow2(1) == 2 && Pow2(2) == 4 && Pow2(4) == 16 && Pow2(8) == 256
    ensures Pow2(16) == 0x10000 && Pow2(31) == 0x8000_0000 && Pow2(32) == U32
  {
    assert Pow2(2) == 4;
    assert Pow2(4) == 16;
    Pow2Add(4, 4);
    Pow2Add(8, 8);
    Pow2Add(16, 16);
  }

  lemma {:induction false} Pow2Add(a: nat, b: nat)
    ensures Pow2(a + b) == Pow2(a) * Pow2(b)
  {
    if a > 0 {
      Pow2Add(a - 1, b);
    }
  }

  lemma {:induction false} Pow2Mono(a: nat, b: nat)
    requires a < b
    ensures Pow2(a) < Pow2(b)
    decreases b
  {
    if a < b - 1 {
      Pow2Mono(a, b - 1);
    }
  }

  lemma {:induction false} ShrAdd(x: nat, a: nat, b: nat)
    ensures Shr(Shr(x, a), b) == Shr(x, a + b)
    decreases a
  {
    if a > 0 {
      ShrAdd(x / 2, a - 1, b);
    }
  }

  /** x >> k is 1 exactly when the top set bit of x is bit k. */
  lemma {:induction false} ShrOne(x: nat, k: nat)
    ensures Shr(x, k) == 1 <==> Pow2(k) <= x < Pow2(k + 1)
  {
    if k > 0 {
      ShrOne(x / 2, k - 1);
    }
  }

  /** x >> k is 0 exactly when x < 2^k. */
  lemma {:induction false} ShrZero(x: nat, k: nat)
    ensures Shr(x, k) == 0 <==> x < Pow2(k)
  {
    if k > 0 {
      ShrZero(x / 2, k - 1);
    }
  }

  lemma {:induction false} ShrBound(x: nat, a: nat, b: nat)
    requires x < Pow2(a + b)
    ensures Shr(x, a) < Pow2(b)
    decreases a
  {
    if a > 0 {
      ShrBound(x / 2, a - 1, b);
    }
  }

  /** Masking with a shifted mask: `x & (m << k) == ((x >> k) & m) << k`. */
  lemma {:induction false} BitAndShifted(x: nat, m: nat, k: nat)
    ensures BitAnd(x, Shl(m, k)) == Shl(BitAnd(Shr(x, k), m), k)
  {
    if k > 0 {
      BitAndShifted(x / 2, m, k - 1);
      var mm := Shl(m, k - 1);
      var v := BitAnd(Shr(x / 2, k - 1), m);
      assert Shr(x, k) == Shr(x / 2, k - 1);
      assert Shl(v, k) == 2 * Shl(v, k - 1);
      BitAndDouble(x, mm);
    }
  }

  /** `x & (2 * m) == 2 * ((x >> 1) & m)`. */
  lemma BitAndDouble(x: nat, m: nat)
    ensures BitAnd(x, 2 * m) == 2 * BitAnd(x / 2, m)
  {
    if x != 0 && m != 0 {
      assert (2 * m) / 2 == m && (2 * m) % 2 == 0;
    }
  }

  lemma {:induction false} ShlZero(k: nat)
    ensures Shl(0, k) == 0
  {
    if k > 0 {
      ShlZero(k - 1);
    }
  }

  lemma {:induction false} ShlPositive(m: nat, k: nat)
    ensures Shl(m, k) == 0 <==> m == 0
  {
    if k > 0 {
      ShlPositive(m, k - 1);
    }
  }

  lemma {:induction false} ShlIsProduct(m: nat, k: nat)
    ensures Shl(m, k) == m * Pow2(k)
  {
    if k > 0 {
      ShlIsProduct(m, k - 1);
      assert m * Pow2(k) == 2 * (m * Pow2(k - 1));
    }
  }

  /** `y & (2^w - 1)` keeps the low w bits. */
  lemma {:induction false} BitAndLowMask(y: nat, w: nat)
    ensures BitAnd(y, Pow2(w) - 1) == LowBits(y, w)
  {
    if w > 0 {
      BitAndLowMask(y / 2, w - 1);
      if y == 0 {
        LowBitsZero(w);
      }
    }
  }

  lemma {:induction false} LowBitsZero(w: nat)
    ensures LowBits(0, w) == 0
  {
    if w > 0 {
      LowBitsZero(w - 1);
    }
  }

  lemma {:induction false} LowBitsBound(y: nat, w: nat)
    ensures LowBits(y, w) < Pow2(w)
    ensures y < Pow2(w) ==> LowBits(y, w) == y
  {
    if w > 0 {
      LowBitsBound(y / 2, w - 1);
    }
  }

  /** The upper half of a 2w-bit window is non-empty exactly when x >= 2^w. */
  lemma UpperHalf(x: nat, w: nat)
    requires x < Pow2(w + w)
    ensures BitAnd(x, Shl(Pow2(w) - 1, w)) != 0 <==> x >= Pow2(w)
  {
    BitAndShifted(x, Pow2(w) - 1, w);
    ShlPositive(BitAnd(Shr(x, w), Pow2(w) - 1), w);
    BitAndLowMask(Shr(x, w), w);
    ShrBound(x, w, w);
    LowBitsBound(Shr(x, w), w);
    ShrZero(x, w);
  }

  /** One step of FloorLog2 on a word x that fits in ww == 2w bits: the result y is 1 <= y < 2^w. */
  lemma FloorLog2Step(x: nat, w: nat, ww: nat, mask: nat, s: nat, y: nat)
    requires ww == w + w && 1 <= x < Pow2(ww) && mask == Shl(Pow2(w) - 1, w)
    requires s == (if BitAnd(x, mask) != 0 then w else 0) && y == Shr(x, s)
    ensures 1 <= y < Pow2(w)
  {
    UpperHalf(x, w);
    if BitAnd(x, mask) != 0 {
      ShrZero(x, w);
      ShrBound(x, w, w);
    }
  }

  /** `(n & (n - 1)) == 0` with 32-bit wrap-around, so 0 counts as a power of 2. */
  predicate IsPower2(n: u32)
  {
    BitAnd(n, (n - 1) % U32) == 0
  }

  /**
   * floor(log2(n)), -1 for 0: the source tests the masks 0xffff0000,
   * 0xff00, 0xf0, 0xc and 0x2 in turn, adding 16, 8, 4, 2, 1 to the
   * result and shifting the word down by the same amount (except after
   * the last test) each time a test succeeds.
   */
  function FloorLog2(n: u32): (p: int)
    ensures n == 0 ==> p == -1
    ensures n != 0 ==> 0 <= p < 32 && Pow2(p) <= n < Pow2(p + 1)
  {
    if n == 0 then -1
    else
      var s1 := if BitAnd(n, 0xffff0000) != 0 then 16 else 0;
      var n1 := Shr(n, s1);
      var s2 := if BitAnd(n1, 0x0000ff00) != 0 then 8 else 0;
      var n2 := Shr(n1, s2);
      var s3 := if BitAnd(n2, 0x000000f0) != 0 then 4 else 0;
      var n3 := Shr(n2, s3);
      var s4 := if BitAnd(n3, 0x0000000c) != 0 then 2 else 0;
      var n4 := Shr(n3, s4);
      var s5 := if BitAnd(n4, 0x00000002) != 0 then 1 else 0;
      FloorLog2Steps(n, s1, n1, s2, n2, s3, n3, s4, n4, s5);
      s1 + s2 + s3 + s4 + s5
  }

  lemma FloorLog2Steps(n: nat, s1: nat, n1: nat, s2: nat, n2: nat, s3: nat, n3: nat, s4: nat, n4: nat, s5: nat)
    requires 1 <= n < U32
    requires s1 == (if BitAnd(n, 0xffff0000) != 0 then 16 else 0) && n1 == Shr(n, s1)
    requires s2 == (if BitAnd(n1, 0x0000ff00) != 0 then 8 else 0) && n2 == Shr(n1, s2)
    requires s3 == (if BitAnd(n2, 0x000000f0) != 0 then 4 else 0) && n3 == Shr(n2, s3)
    requires s4 == (if BitAnd(n3, 0x0000000c) != 0 then 2 else 0) && n4 == Shr(n3, s4)
    requires s5 == (if BitAnd(n4, 0x00000002) != 0 then 1 else 0)
    ensures Shr(n, s1 + s2 + s3 + s4 + s5) == 1
    ensures Pow2(s1 + s2 + s3 + s4 + s5) <= n < Pow2(s1 + s2 + s3 + s4 + s5 + 1)
  {
    ShrStages(n, s1, n1, s2, n2, s3, n3, s4, n4, s5);
    ShrChain(n, s1, n1, s2, n2, s3, n3, s4, n4, s5);
  }

  /** Five shifts in a row are one shift by their sum; a last value of 1 locates the top set bit. */
  lemma ShrChain(n: nat, s1: nat, n1: nat, s2: nat, n2: nat, s3: nat, n3: nat, s4: nat, n4: nat, s5: nat)
    requires n1 == Shr(n, s1) && n2 == Shr(n1, s2) && n3 == Shr(n2, s3) && n4 == Shr(n3, s4)
    requires Shr(n4, s5) == 1
    ensures Shr(n, s1 + s2 + s3 + s4 + s5) == 1
    ensures Pow2(s1 + s2 + s3 + s4 + s5) <= n < Pow2(s1 + s2 + s3 + s4 + s5 + 1)
  {
    ShrAdd(n, s1, s2);
    ShrAdd(n, s1 + s2, s3);
    ShrAdd(n, s1 + s2 + s3, s4);
    ShrAdd(n, s1 + s2 + s3 + s4, s5);
    ShrOne(n, s1 + s2 + s3 + s4 + s5);
  }

  /** The stages from the 2w-bit window down leave exactly the top set bit. */
  lemma ShrStages(n: nat, s1: nat, n1: nat, s2: nat, n2: nat, s3: nat, n3: nat, s4: nat, n4: nat, s5: nat)
    requires 1 <= n < U32
    requires s1 == (if BitAnd(n, 0xffff0000) != 0 then 16 else 0) && n1 == Shr(n, s1)
    requires s2 == (if BitAnd(n1, 0x0000ff00) != 0 then 8 else 0) && n2 == Shr(n1, s2)
    requires s3 == (if BitAnd(n2, 0x000000f0) != 0 then 4 else 0) && n3 == Shr(n2, s3)
    requires s4 == (if BitAnd(n3, 0x0000000c) != 0 then 2 else 0) && n4 == Shr(n3, s4)
    requires s5 == (if BitAnd(n4, 0x00000002) != 0 then 1 else 0)
    ensures Shr(n4, s5) == 1
  {
    Stage16(n, s1, n1);
    From8(n1, s2, n2, s3, n3, s4, n4, s5);
  }

  lemma From8(n1: nat, s2: nat, n2: nat, s3: nat, n3: nat, s4: nat, n4: nat, s5: nat)
    requires 1 <= n1 < 0x10000
    requires s2 == (if BitAnd(n1, 0x0000ff00) != 0 then 8 else 0) && n2 == Shr(n1, s2)
    requires s3 == (if BitAnd(n2, 0x000000f0) != 0 then 4 else 0) && n3 == Shr(n2, s3)
    requires s4 == (if BitAnd(n3, 0x0000000c) != 0 then 2 else 0) && n4 == Shr(n3, s4)
    requires s5 == (if BitAnd(n4, 0x00000002) != 0 then 1 else 0)
    ensures Shr(n4, s5) == 1
  {
    Stage8(n1, s2, n2);
    From4(n2, s3, n3, s4, n4, s5);
  }

  lemma From4(n2: nat, s3: nat, n3: nat, s4: nat, n4: nat, s5: nat)
    requires 1 <= n2 < 0x100
    requires s3 == (if BitAnd(n2, 0x000000f0) != 0 then 4 else 0) && n3 == Shr(n2, s3)
    requires s4 == (if BitAnd(n3, 0x0000000c) != 0 then 2 else 0) && n4 == Shr(n3, s4)
    requires s5 == (if BitAnd(n4, 0x00000002) != 0 then 1 else 0)
    ensures Shr(n4, s5) == 1
  {
    Stage4(n2, s3, n3);
    Stage2(n3, s4, n4);
    Stage1(n4, s5, Shr(n4, s5));
  }

  lemma Stage16(x: nat, s: nat, y: nat)
    requires 1 <= x < U32
    requires s == (if BitAnd(x, 0xffff0000) != 0 then 16 else 0) && y == Shr(x, s)
    ensures 1 <= y < 0x10000
  {
    MaskValues();
    FloorLog2Step(x, 16, 32, 0xffff0000, s, y);
  }

  lemma Stage8(x: nat, s: nat, y: nat)
    requires 1 <= x < 0x10000
    requires s == (if BitAnd(x, 0x0000ff00) != 0 then 8 else 0) && y == Shr(x, s)
    ensures 1 <= y < 0x100
  {
    MaskValues();
    FloorLog2Step(x, 8, 16, 0x0000ff00, s, y);
  }

  lemma Stage4(x: nat, s: nat, y: nat)
    requires 1 <= x < 0x100
    requires s == (if BitAnd(x, 0x000000f0) != 0 then 4 else 0) && y == Shr(x, s)
    ensures 1 <= y < 0x10
  {
    MaskValues();
    FloorLog2Step(x, 4, 8, 0x000000f0, s, y);
  }

  lemma Stage2(x: nat, s: nat, y: nat)
    requires 1 <= x < 0x10
    requires s == (if BitAnd(x, 0x0000000c) != 0 then 2 else 0) && y == Shr(x, s)
    ensures 1 <= y < 4
  {
    MaskValues();
    FloorLog2Step(x, 2, 4, 0x0000000c, s, y);
  }

  lemma Stage1(x: nat, s: nat, y: nat)
    requires 1 <= x < 4
    requires s == (if BitAnd(x, 0x00000002) != 0 then 1 else 0) && y == Shr(x, s)
    ensures 1 <= y < 2
  {
    MaskValues();
    FloorLog2Step(x, 1, 2, 0x00000002, s, y);
  }

  /** The source's masks are the upper halves of 32-, 16-, 8-, 4- and 2-bit windows. */
  lemma MaskValues()
    ensures Pow2(32) == U32 && Pow2(16) == 0x10000 && Pow2(8) == 0x100 && Pow2(4) == 0x10 && Pow2(2) == 4 && Pow2(1) == 2
    ensures Shl(Pow2(16) - 1, 16) == 0xffff0000 && Shl(Pow2(8) - 1, 8) == 0x0000ff00
    ensures Shl(Pow2(4) - 1, 4) == 0x000000f0 && Shl(Pow2(2) - 1, 2) == 0x0000000c && Shl(Pow2(1) - 1, 1) == 0x00000002
  {
    Pow2Values();
    ShlIsProduct(Pow2(16) - 1, 16);
    ShlIsProduct(Pow2(8) - 1, 8);
    ShlIsProduct(Pow2(4) - 1, 4);
    ShlIsProduct(Pow2(2) - 1, 2);
    ShlIsProduct(Pow2(1) - 1, 1);
  }

  /** A power of two below 2^32 is found at its own exponent. */
  lemma FloorLog2OfPow2(k: nat)
    requires k < 32
    ensures Pow2(k) < U32 && FloorLog2(Pow2(k)) == k
  {
    Pow2Values();
    Pow2Mono(k, 32);
    var p := FloorLog2(Pow2(k));
    if p < k {
      if p + 1 < k {
        Pow2Mono(p + 1, k);
      }
    } else if p > k {
      Pow2Mono(k, p);
    }
  }

  lemma {:induction false} BitAndSelf(m: nat)
    ensures BitAnd(m, m) == m
  {
    if m != 0 {
      BitAndSelf(m / 2);
    }
  }

  /** n & (n - 1) clears the lowest set bit, so it is 0 only for a power of two. */
  lemma {:induction false} BitAndPrev(n: nat)
    requires n >= 1
    ensures BitAnd(n, n - 1) == 0 <==> exists k: nat :: n == Pow2(k)
  {
    if n == 1 {
      assert BitAnd(n, n - 1) == BitAnd(1, 0) == 0;
      assert n == Pow2(0);
    } else if n % 2 == 0 {
      var m := n / 2;
      BitAndPrev(m);
      assert (n - 1) / 2 == m - 1;
      assert BitAnd(n, n - 1) == 2 * BitAnd(m, m - 1);
      if BitAnd(n, n - 1) == 0 {
        var k: nat :| m == Pow2(k);
        var j: nat := k + 1;
        assert n == Pow2(j);
      } else {
        forall k: nat ensures n != Pow2(k) {
          if k > 0 {
            var j: nat := k - 1;
            assert Pow2(k) == 2 * Pow2(j);
          }
        }
      }
    } else {
      BitAndSelf(n / 2);
      assert BitAnd(n, n - 1) == 2 * BitAnd(n / 2, n / 2);
      forall k: nat ensures n != Pow2(k) {
        if k > 0 {
          assert Pow2(k) == 2 * Pow2(k - 1);
        }
      }
    }
  }

  lemma Pow2AtLeast32(k: nat)
    requires k >= 32
    ensures Pow2(k) >= U32
  {
    Pow2Values();
    if k > 32 {
      Pow2Mono(32, k);
    }
  }

  /** The shift the constructor derives from a power-of-two line size undoes it. */
  lemma Pow2FloorLog2(n: u32)
    requires IsPower2(n) && n != 0
    ensures 0 <= FloorLog2(n) < 32 && Pow2(FloorLog2(n)) == n
  {
    IsPower2Iff(n);
    var k: nat :| k < 32 && n == Pow2(k);
    FloorLog2OfPow2(k);
  }

  lemma IsPower2Iff(n: u32)
    ensures IsPower2(n) <==> n == 0 || exists k: nat | k < 32 :: n == Pow2(k)
  {
    if n != 0 {
      var b := BitAnd(n, n - 1);
      assert (n - 1) % U32 == n - 1;
      assert IsPower2(n) <==> b == 0;
      BitAndPrev(n);
      if b == 0 {
        var k: nat :| n == Pow2(k);
        if k >= 32 {
          Pow2AtLeast32(k);
        }
        assert k < 32 && n == Pow2(k);
        assert IsPower2(n);
        assert exists j: nat | j < 32 :: n == Pow2(j);
      } else {
        assert forall k: nat :: n != Pow2(k);
      }
    }
  }

  /**
   * ceil(log2(n)) as FloorLog2(n - 1) + 1 on uint32_t: the least p with
   * n <= 2^p for n >= 1; n == 0 wraps to FloorLog2(0xffffffff) + 1 == 32.
   */
  function CeilLog2(n: u32): (p: int)
    ensures n == 0 ==> p == 32
    ensures n >= 1 ==> 0 <= p <= 32 && n <= Pow2(p) && (p >= 1 ==> Pow2(p - 1) < n)
  {
    var q := FloorLog2((n - 1) % U32);
    if n == 0 then
      FloorLog2Top();
      q + 1
    else
      q + 1
  }

  /** The largest uint32_t value has its top bit at position 31. */
  lemma FloorLog2Top()
    ensures FloorLog2(U32 - 1) == 31
  {
    Pow2Values();
    var q := FloorLog2(U32 - 1);
    if q + 1 < 32 {
      Pow2Mono(q + 1, 31);
    }
  }

  // ---------------------------------------------------------------------
  // Address splitting
  // ---------------------------------------------------------------------

  /**
   * `tagaddr = addr >> lineShift; setIndex = tagaddr & setIndexMask`.
   * The set index never exceeds the mask, so it indexes one of the
   * NumSets() == mask + 1 sets.
   */
  function SplitAddress(addr: nat, lineShift: nat, setIndexMask: nat): (r: (nat, nat))
    ensures r.1 < setIndexMask + 1
  {
    var tag := Shr(addr, lineShift);
    (tag, BitAnd(tag, setIndexMask))
  }

  /** With 2^k sets the set index is the low k bits of the tag. */
  lemma SplitAddressLowBits(addr: nat, lineShift: nat, k: nat)
    ensures SplitAddress(addr, lineShift, Pow2(k) - 1).1 == LowBits(Shr(addr, lineShift), k)
  {
    BitAndLowMask(Shr(addr, lineShift), k);
  }

  // ---------------------------------------------------------------------
  // Cache sets
  // ---------------------------------------------------------------------

  const MAX_ASSOCIATIVITY: nat := 32

  datatype ReplacementPolicy = DirectMappedPolicy | RoundRobinPolicy | LruPolicy

  /**
   * The tags of one cache set under each replacement policy. A round-robin
   * set keeps `associativity` tags and the index it replaces next
   * (`_tagsLastIndex` is |tags| - 1); an LRU set keeps its tags most
   * recently used first.
   */
  datatype CacheSet =
    | DirectMapped(tag: nat)
    | RoundRobin(tags: seq<nat>, nextReplace: nat)
    | Lru(tags: seq<nat>)

  predicate SetValid(s: CacheSet)
  {
    match s
    case DirectMapped(_) => true
    case RoundRobin(tags, next) => 1 <= |tags| <= MAX_ASSOCIATIVITY && next < |tags|
    case Lru(tags) => 1 <= |tags| <= MAX_ASSOCIATIVITY
  }

  function PolicyOf(s: CacheSet): ReplacementPolicy
  {
    match s
    case DirectMapped(_) => DirectMappedPolicy
    case RoundRobin(_, _) => RoundRobinPolicy
    case Lru(_) => LruPolicy
  }

  /** The tags a set holds, whatever its policy. */
  function Contents(s: CacheSet): seq<nat>
  {
    match s
    case DirectMapped(tag) => [tag]
    case RoundRobin(tags, _) => tags
    case Lru(tags) => tags
  }

  function Associativity(s: CacheSet): nat
  {
    |Contents(s)|
  }

  predicate AllZero(tags: seq<nat>)
  {
    forall i :: 0 <= i < |tags| ==> tags[i] == 0
  }

  /** `associativity` fresh tags, each holding address 0. */
  method ZeroTags(associativity: nat) returns (tags: seq<nat>)
    ensures |tags| == associativity && AllZero(tags)
  {
    tags := [];
    var i := 0;
    while i < associativity
      invariant i <= associativity
      invariant |tags| == i && AllZero(tags)
    {
      tags := tags + [0];
      i := i + 1;
    }
  }

  /**
   * A new set: every tag is 0 and a round-robin set replaces its last way
   * first. A direct-mapped set has exactly one way.
   */
  method NewSet(policy: ReplacementPolicy, associativity: nat) returns (s: CacheSet)
    requires 1 <= associativity <= MAX_ASSOCIATIVITY
    requires policy == DirectMappedPolicy ==> associativity == 1
    ensures SetValid(s) && PolicyOf(s) == policy
    ensures Associativity(s) == associativity && AllZero(Contents(s))
    ensures s.RoundRobin? ==> s.nextReplace == associativity - 1
  {
    match policy
    case DirectMappedPolicy =>
      s := DirectMapped(0);
    case RoundRobinPolicy =>
      var tags := ZeroTags(associativity);
      s := RoundRobin(tags, associativity - 1);
    case LruPolicy =>
      var tags := ZeroTags(associativity);
      s := Lru(tags);
  }

  /** Position of the first occurrence of `t`. */
  function FirstIndex(tags: seq<nat>, t: nat): (i: nat)
    requires t in tags
    ensures i < |tags| && tags[i] == t && t !in tags[..i]
  {
    if tags[0] == t then 0 else
      var j := FirstIndex(tags[1..], t);
      assert tags[1..][..j] == tags[1..j + 1];
      assert tags[..j + 1] == [tags[0]] + tags[1..j + 1];
      j + 1
  }

  lemma FirstIndexAt(tags: seq<nat>, t: nat, i: nat)
    requires i < |tags| && tags[i] == t && t !in tags[..i]
    ensures FirstIndex(tags, t) == i
  {
  }

  /**
   * The LRU promotion: the first tag equal to `t` is taken out of the list
   * and put at the front, the others keep their order.
   */
  function Promote(tags: seq<nat>, t: nat): (r: seq<nat>)
    requires t in tags
    ensures |r| == |tags| && r[0] == t
    ensures multiset(r) == multiset(tags)
  {
    var i := FirstIndex(tags, t);
    assert tags == tags[..i] + [tags[i]] + tags[i + 1..];
    [t] + tags[..i] + tags[i + 1..]
  }

  /** Promoting the tag that is already most recently used changes nothing. */
  lemma PromoteFront(tags: seq<nat>, t: nat)
    requires |tags| >= 1 && tags[0] == t
    ensures Promote(tags, t) == tags
  {
    assert FirstIndex(tags, t) == 0;
  }

  /** Promoting twice is promoting once. */
  lemma PromoteIdempotent(tags: seq<nat>, t: nat)
    requires t in tags
    ensures t in Promote(tags, t) && Promote(Promote(tags, t), t) == Promote(tags, t)
  {
    PromoteFront(Promote(tags, t), t);
  }

  /**
   * The round-robin search: from the last way down to way 0, so the
   * highest matching way is found.
   */
  method RoundRobinFind(tags: seq<nat>, t: nat) returns (way: Option<nat>)
    ensures way.Some? ==> (way.value < |tags| && tags[way.value] == t
      && forall j :: way.value < j < |tags| ==> tags[j] != t)
    ensures way.None? <==> t !in tags
  {
    var index := |tags| - 1;
    while index >= 0
      invariant -1 <= index < |tags|
      invariant forall j :: index < j < |tags| ==> tags[j] != t
    {
      if tags[index] == t {
        return Some(index);
      }
      index := index - 1;
    }
    return None;
  }

  /**
   * The LRU search: walk from the front; a hit moves the tag to the front.
   */
  method LruFind(tags: seq<nat>, t: nat) returns (hit: bool, tags': seq<nat>)
    ensures hit <==> t in tags
    ensures hit ==> tags' == Promote(tags, t)
    ensures !hit ==> tags' == tags
  {
    var i := 0;
    while i < |tags|
      invariant i <= |tags|
      invariant t !in tags[..i]
    {
      if tags[i] == t {
        FirstIndexAt(tags, t, i);
        return true, [t] + tags[..i] + tags[i + 1..];
      }
      assert tags[..i + 1] == tags[..i] + [tags[i]];
      i := i + 1;
    }
    assert tags[..i] == tags;
    return false, tags;
  }

  /** The set after a lookup of `t`: an LRU set that holds it moves it to the front. */
  function AfterFind(s: CacheSet, t: nat): (r: CacheSet)
    ensures PolicyOf(r) == PolicyOf(s) && multiset(Contents(r)) == multiset(Contents(s))
    ensures s.Lru? && t in Contents(s) ==> Contents(r)[0] == t
  {
    if s.Lru? && t in s.tags then Lru(Promote(s.tags, t)) else s
  }

  /**
   * CACHE_SET::Find: whether the set holds `t`; an LRU hit also promotes
   * the tag. Nothing else about the set changes.
   */
  method Find(s: CacheSet, t: nat) returns (hit: bool, s': CacheSet)
    requires SetValid(s)
    ensures hit <==> t in Contents(s)
    ensures s' == AfterFind(s, t)
    ensures SetValid(s') && PolicyOf(s') == PolicyOf(s)
    ensures multiset(Contents(s')) == multiset(Contents(s)) && Associativity(s') == Associativity(s)
    ensures s'.Lru? && hit ==> s'.tags == Promote(s.tags, t)
    ensures !(s'.Lru? && hit) ==> s' == s
  {
    match s
    case DirectMapped(tag) =>
      hit := tag == t;
      s' := s;
    case RoundRobin(tags, _) =>
      var way := RoundRobinFind(tags, t);
      hit := way.Some?;
      s' := s;
    case Lru(tags) =>
      var tags';
      hit, tags' := LruFind(tags, t);
      s' := Lru(tags');
  }

  /**
   * CACHE_SET::Replace: a direct-mapped set overwrites its one tag, a
   * round-robin set overwrites the way it points at and moves the pointer
   * one way down (wrapping to the last way), an LRU set evicts its back
   * tag and puts `t` at the front.
   */
  function Replace(s: CacheSet, t: nat): (r: CacheSet)
    requires SetValid(s)
    ensures SetValid(r) && PolicyOf(r) == PolicyOf(s)
    ensures Associativity(r) == Associativity(s)
    ensures t in Contents(r)
    ensures r.RoundRobin? ==> r.tags == s.tags[s.nextReplace := t]
    ensures r.Lru? ==> r.tags == [t] + s.tags[..|s.tags| - 1]
  {
    match s
    case DirectMapped(_) => DirectMapped(t)
    case RoundRobin(tags, next) =>
      assert tags[next := t][next] == t;
      RoundRobin(tags[next := t], if next == 0 then |tags| - 1 else next - 1)
    case Lru(tags) =>
      Lru([t] + tags[..|tags| - 1])
  }

  /** The way `k` steps below way `p`, cyclically among `n` ways. */
  function Down(p: nat, k: nat, n: nat): (w: nat)
    requires p < n && k <= n
    ensures w < n || k == 0
  {
    if k <= p then p - k else p + n - k
  }

  lemma DownStep(p: nat, j: nat, n: nat)
    requires p < n && j + 1 <= n
    ensures Down(Down(p, 1, n), j, n) == Down(p, j + 1, n)
  {
  }

  /** Replacing the tags of `ts` one after another. */
  function ReplaceAll(s: CacheSet, ts: seq<nat>): (r: CacheSet)
    requires SetValid(s)
    ensures SetValid(r) && PolicyOf(r) == PolicyOf(s) && Associativity(r) == Associativity(s)
    decreases |ts|
  {
    if ts == [] then s else ReplaceAll(Replace(s, ts[0]), ts[1..])
  }

  /** One round-robin replacement moves the pointer one way down, cyclically. */
  lemma ReplacePointer(s: CacheSet, t: nat)
    requires SetValid(s) && s.RoundRobin?
    ensures Replace(s, t).nextReplace == Down(s.nextReplace, 1, |s.tags|)
  {
  }

  /** Round-robin replacements leave a way alone until the pointer reaches it. */
  lemma {:induction false} ReplaceAllKeeps(s: CacheSet, ts: seq<nat>, way: nat)
    requires SetValid(s) && s.RoundRobin? && way < |s.tags| && |ts| <= |s.tags|
    requires forall j :: 0 <= j < |ts| ==> Down(s.nextReplace, j, |s.tags|) != way
    ensures ReplaceAll(s, ts).tags[way] == s.tags[way]
    decreases |ts|
  {
    if ts != [] {
      var n := |s.tags|;
      var s1 := Replace(s, ts[0]);
      assert Down(s.nextReplace, 0, n) != way;
      ReplacePointer(s, ts[0]);
      forall j | 0 <= j < |ts| - 1
        ensures Down(s1.nextReplace, j, n) != way
      {
        DownStep(s.nextReplace, j, n);
      }
      ReplaceAllKeeps(s1, ts[1..], way);
    }
  }

  /** `k` round-robin replacements in a row walk the pointer `k` ways down. */
  lemma {:induction false} RoundRobinPointer(s: CacheSet, ts: seq<nat>)
    requires SetValid(s) && s.RoundRobin? && |ts| <= |s.tags|
    ensures ReplaceAll(s, ts).nextReplace == Down(s.nextReplace, |ts|, |s.tags|)
    decreases |ts|
  {
    if ts != [] {
      ReplacePointer(s, ts[0]);
      RoundRobinPointer(Replace(s, ts[0]), ts[1..]);
      DownStep(s.nextReplace, |ts| - 1, |s.tags|);
    }
  }

  /**
   * Round robin: within `associativity` replacements in a row each lands
   * on a way of its own, so every tag written is still there at the end.
   */
  lemma {:induction false} RoundRobinCycle(s: CacheSet, ts: seq<nat>)
    requires SetValid(s) && s.RoundRobin? && |ts| <= |s.tags|
    ensures forall k :: 0 <= k < |ts| ==>
      ReplaceAll(s, ts).tags[Down(s.nextReplace, k, |s.tags|)] == ts[k]
    decreases |ts|
  {
    var n := |s.tags|;
    if ts != [] {
      var s1 := Replace(s, ts[0]);
      ReplacePointer(s, ts[0]);
      RoundRobinCycle(s1, ts[1..]);
      var r := ReplaceAll(s1, ts[1..]);
      assert r == ReplaceAll(s, ts);
      forall k | 0 <= k < |ts|
        ensures r.tags[Down(s.nextReplace, k, n)] == ts[k]
      {
        if k == 0 {
          FirstWayKept(s, s1, ts);
        } else {
          DownStep(s.nextReplace, k - 1, n);
          assert ts[1..][k - 1] == ts[k];
        }
      }
    }
  }

  lemma FirstWayKept(s: CacheSet, s1: CacheSet, ts: seq<nat>)
    requires SetValid(s) && s.RoundRobin? && 1 <= |ts| <= |s.tags|
    requires s1 == Replace(s, ts[0])
    ensures ReplaceAll(s1, ts[1..]).tags[s.nextReplace] == ts[0]
  {
    var n := |s.tags|;
    ReplacePointer(s, ts[0]);
    forall j | 0 <= j < |ts| - 1
      ensures Down(s1.nextReplace, j, n) != s.nextReplace
    {
      DownStep(s.nextReplace, j, n);
    }
    ReplaceAllKeeps(s1, ts[1..], s.nextReplace);
  }

  /** CACHE_SET::Flush: every tag becomes 0 and a round-robin set restarts at its last way. */
  method Flush(s: CacheSet) returns (r: CacheSet)
    requires SetValid(s)
    ensures SetValid(r) && PolicyOf(r) == PolicyOf(s)
    ensures Associativity(r) == Associativity(s) && AllZero(Contents(r))
    ensures r.RoundRobin? ==> r.nextReplace == |r.tags| - 1
  {
    match s
    case DirectMapped(_) =>
      r := DirectMapped(0);
    case RoundRobin(tags, _) =>
      var flushed := tags;
      var index := |tags| - 1;
      while index >= 0
        invariant -1 <= index < |tags| && |flushed| == |tags|
        invariant forall j :: index < j < |tags| ==> flushed[j] == 0
      {
        flushed := flushed[index := 0];
        index := index - 1;
      }
      r := RoundRobin(flushed, |tags| - 1);
    case Lru(tags) =>
      // The old tags are freed and as many fresh zero tags pushed.
      var associativity := |tags|;
      var zeroed := ZeroTags(associativity);
      r := Lru(zeroed);
  }

  // ---------------------------------------------------------------------
  // Hit and miss counters
  // ---------------------------------------------------------------------

  datatype AccessType = Load | Store

  /** `_access[accessType][hit]` of a storage level. */
  datatype AccessCounters = AccessCounters(loadMiss: nat, loadHit: nat, storeMiss: nat, storeHit: nat)
  {
    function Count(accessType: AccessType, hit: bool): nat
    {
      match (accessType, hit)
      case (Load, false) => loadMiss
      case (Load, true) => loadHit
      case (Store, false) => storeMiss
      case (Store, true) => storeHit
    }

    function Hits(accessType: AccessType): nat { Count(accessType, true) }
    function Misses(accessType: AccessType): nat { Count(accessType, false) }
    function Accesses(accessType: AccessType): nat { Hits(accessType) + Misses(accessType) }

    /** `_access[accessType][hit]++`. */
    function Record(accessType: AccessType, hit: bool): (c: AccessCounters)
      ensures c.Count(accessType, hit) == Count(accessType, hit) + 1
      ensures forall t: AccessType, h: bool :: (t, h) != (accessType, hit) ==> c.Count(t, h) == Count(t, h)
    {
      match (accessType, hit)
      case (Load, false) => this.(loadMiss := loadMiss + 1)
      case (Load, true) => this.(loadHit := loadHit + 1)
      case (Store, false) => this.(storeMiss := storeMiss + 1)
      case (Store, true) => this.(storeHit := storeHit + 1)
    }
  }

  const NoAccesses := AccessCounters(0, 0, 0, 0)

  /** SumAccess: the hits (or misses) of loads and stores together. */
  method SumAccess(c: AccessCounters, hit: bool) returns (sum: nat)
    ensures sum == c.Count(Load, hit) + c.Count(Store, hit)
  {
    sum := 0;
    var types := [Load, Store];
    var i := 0;
    while i < |types|
      invariant i <= |types|
      invariant sum == (if i >= 1 then c.Count(Load, hit) else 0) + (if i >= 2 then c.Count(Store, hit) else 0)
    {
      sum := sum + c.Count(types[i], hit);
      i := i + 1;
    }
  }

  /** Total hits plus total misses is the total of the per-type accesses. */
  lemma AccessesTotal(c: AccessCounters)
    ensures (c.Hits(Load) + c.Hits(Store)) + (c.Misses(Load) + c.Misses(Store))
      == c.Accesses(Load) + c.Accesses(Store)
  {
  }

  /** Recording one access adds exactly one access, and one hit iff it hit. */
  lemma RecordCounts(c: AccessCounters, accessType: AccessType, hit: bool)
    ensures c.Record(accessType, hit).Accesses(accessType) == c.Accesses(accessType) + 1
    ensures c.Record(accessType, hit).Hits(accessType) == c.Hits(accessType) + (if hit then 1 else 0)
  {
  }
}
