/** Fixed-width arithmetic as the ring and the allocator use it: wrapping 32-bit
    counters, and bitwise AND against the masks derived from power-of-two sizes. */
module MachineWords {
  const TWO32: nat := 0x1_0000_0000
  const TWO64: nat := 0x1_0000_0000_0000_0000

  type U32 = x: int | 0 <= x < TWO32 witness 0

  type Byte = x: int | 0 <= x < 256 witness 0

  /** Unsigned 32-bit addition and subtraction, both reduced modulo 2^32. */
  function Add32(a: U32, b: U32): U32 { (a + b) % TWO32 }

  function Sub32(a: U32, b: U32): U32 { (a - b) % TWO32 }

  /** An unbounded counter as a 32-bit word: 2^32 is taken off until the rest fits. */
  ghost function Wrapped(p: nat): (x: U32)
    decreases p
  {
    if p < TWO32 then p else Wrapped(p - TWO32)
  }

  /** The slot of an unbounded position in a ring of the given size. */
  ghost function Slot(p: nat, size: nat): (s: nat)
    requires size > 0
    ensures s < size
    decreases p
  {
    if p < size then p else Slot(p - size, size)
  }

  lemma {:induction false} WrappedIsMod(p: nat)
    ensures Wrapped(p) == p % TWO32
    decreases p
  {
    if p >= TWO32 {
      WrappedIsMod(p - TWO32);
    }
  }

  lemma {:induction false} SlotIsMod(p: nat, size: nat)
    requires size > 0
    ensures Slot(p, size) == p % size
    decreases p
  {
    if p < size {
      ModUnique(p, size, 0, p);
    } else {
      SlotIsMod(p - size, size);
      var q, r := (p - size) / size, (p - size) % size;
      assert p == size * q + r + size;
      assert size * (q + 1) == size * q + size;
      ModUnique(p, size, q + 1, r);
    }
  }

  function Pow2(k: nat): nat { if k == 0 then 1 else 2 * Pow2(k - 1) }

  /** Bitwise AND, by its binary digits. */
  function BitAnd(a: nat, b: nat): nat
    decreases a
  {
    if a == 0 || b == 0 then 0 else 2 * BitAnd(a / 2, b / 2) + if a % 2 == 1 && b % 2 == 1 then 1 else 0
  }

  lemma {:induction false} Pow2Monotone(j: nat, k: nat)
    requires j <= k
    ensures 0 < Pow2(j) <= Pow2(k)
    decreases k
  {
    if k == 0 {
    } else if j == k {
      Pow2Monotone(j - 1, k - 1);
    } else {
      Pow2Monotone(j, k - 1);
    }
  }

  lemma Pow2Values()
    ensures Pow2(31) == 0x8000_0000 && Pow2(32) == TWO32 && Pow2(64) == TWO64
  {
    assert Pow2(8) == 256;
    assert Pow2(16) == 65536;
    assert Pow2(24) == 0x100_0000;
    assert Pow2(31) == 0x8000_0000;
    assert Pow2(40) == 0x100_0000_0000;
    assert Pow2(48) == 0x1_0000_0000_0000;
    assert Pow2(56) == 0x100_0000_0000_0000;
    assert Pow2(64) == TWO64;
  }

  /** A 32-bit ring size that is a power of two is at most 2^31. */
  lemma RingSizeFits(k: nat)
    requires k <= 31
    ensures 0 < Pow2(k) <= 0x8000_0000
  {
    Pow2Values();
    Pow2Monotone(0, k);
    Pow2Monotone(k, 31);
  }

  lemma MulAtLeast(m: nat, x: int)
    ensures x >= 1 ==> m * x >= m
    ensures x <= -1 ==> m * x + m <= 0
  {
  }

  lemma DivisionIsUnique(m: nat, q: int, r: nat, q': int, r': nat)
    requires m * q + r == m * q' + r' && r < m && r' < m
    ensures q == q' && r == r'
  {
    assert m * (q - q') == r' - r;
    MulAtLeast(m, q - q');
  }

  /** Quotient and remainder are determined by the division equation. */
  lemma ModUnique(a: int, m: nat, q: int, r: nat)
    requires a == m * q + r && r < m
    ensures a % m == r && a / m == q
  {
    DivisionIsUnique(m, q, r, a / m, a % m);
  }

  /** Halving a number given by quotient and remainder of an even divisor. */
  lemma Halved(a: nat, m: nat, q: nat, r: nat)
    requires a == (2 * m) * q + r
    ensures a / 2 == m * q + r / 2 && a % 2 == r % 2
  {
    Double(m, q);
  }

  lemma Double(m: nat, q: nat)
    ensures (2 * m) * q == 2 * (m * q)
  {
  }

  /** The low k digits of 2^k * q + r are those of r, and the others those of 2^k * q. */
  lemma {:induction false} LowDigits(a: nat, q: nat, r: nat, k: nat)
    requires r < Pow2(k) && a == Pow2(k) * q + r
    ensures BitAnd(a, Pow2(k) - 1) == r
    decreases k
  {
    if k > 0 {
      var m := Pow2(k - 1);
      Halved(a, m, q, r);
      LowDigits(a / 2, q, r / 2, k - 1);
      AndOddStep(a, 2 * m - 1, m - 1);
    }
  }

  lemma {:induction false} HighDigits(a: nat, q: nat, r: nat, k: nat, w: nat)
    requires k <= w && r < Pow2(k) <= Pow2(w) && a == Pow2(k) * q + r < Pow2(w)
    ensures BitAnd(a, Pow2(w) - Pow2(k)) == Pow2(k) * q
    decreases k
  {
    if k == 0 {
      LowDigits(a, 0, a, w);
    } else {
      var m := Pow2(k - 1);
      Halved(a, m, q, r);
      Double(m, q);
      HighDigits(a / 2, q, r / 2, k - 1, w - 1);
      AndEvenStep(a, Pow2(w) - Pow2(k), Pow2(w - 1) - m);
    }
  }

  lemma Division(a: nat, m: nat)
    requires m > 0
    ensures a == m * (a / m) + a % m && 0 <= a / m && 0 <= a % m < m
  {
  }

  /** The slot mask of a power-of-two ring computes the index modulo its size. */
  lemma AndLowMask(i: nat, k: nat)
    ensures Pow2(k) > 0
    ensures BitAnd(i, Pow2(k) - 1) == i % Pow2(k)
  {
    Pow2Monotone(0, k);
    Division(i, Pow2(k));
    LowDigits(i, i / Pow2(k), i % Pow2(k), k);
  }

  /** The frame mask ~(2^k - 1) of w-bit words rounds an address down to its chunk. */
  lemma AndHighMask(a: nat, k: nat, w: nat)
    requires k <= w && a < Pow2(w)
    ensures Pow2(k) > 0 && Pow2(w) >= Pow2(k)
    ensures BitAnd(a, Pow2(w) - 1 - (Pow2(k) - 1)) == a - a % Pow2(k)
  {
    Pow2Monotone(k, w);
    Division(a, Pow2(k));
    HighDigits(a, a / Pow2(k), a % Pow2(k), k, w);
  }

  lemma ModOfMultiple(p: nat, m: nat, c: nat)
    requires m > 0 && c > 0 && m * c > 0
    ensures (p % (m * c)) % m == p % m
  {
    var q, r := p / (m * c), p % (m * c);
    NestedDivision(p, m, c, q, r, r / m, r % m);
    ModUnique(p, m, c * q + r / m, r % m);
  }

  lemma NestedDivision(p: nat, m: nat, c: nat, q: int, r: int, q2: int, r2: int)
    requires p == (m * c) * q + r && r == m * q2 + r2
    ensures p == m * (c * q + q2) + r2
  {
    assert (m * c) * q == m * (c * q);
    assert m * (c * q) + m * q2 == m * (c * q + q2);
  }

  /** Reducing an unbounded position to 32 bits loses nothing a ring slot depends on. */
  lemma {:induction false} WrapKeepsSlot(p: nat, k: nat)
    requires k <= 32
    ensures Pow2(k) > 0 && (p % TWO32) % Pow2(k) == p % Pow2(k)
  {
    Pow2Monotone(0, k);
    Pow2Monotone(0, 32 - k);
    Pow2Values();
    Pow2Split(k, 32 - k);
    ModOfMultiple(p, Pow2(k), Pow2(32 - k));
  }

  lemma {:induction false} Pow2Split(j: nat, k: nat)
    ensures Pow2(j + k) == Pow2(j) * Pow2(k)
  {
    if j > 0 {
      Pow2Split(j - 1, k);
      Double(Pow2(j - 1), Pow2(k));
    }
  }

  /** Differences of wrapped counters are exact while the true distance fits 32 bits. */
  lemma DistanceExact(a: nat, b: nat)
    requires b <= a < b + TWO32
    ensures Sub32(Wrapped(a), Wrapped(b)) == a - b
  {
    WrappedIsMod(a);
    WrappedIsMod(b);
  }

  lemma AdvanceExact(a: nat, n: U32)
    ensures Add32(Wrapped(a), n) == Wrapped(a + n)
  {
    WrappedIsMod(a);
    WrappedIsMod(a + n);
  }

  /** The free space of a ring, computed on wrapped counters. */
  lemma FreeSpaceExact(size: U32, p: nat, c: nat)
    requires c <= p <= c + size
    ensures Sub32(size, Sub32(Wrapped(p), Wrapped(c))) == c + size - p
  {
    DistanceExact(p, c);
  }

  /** Two positions less than one ring apart never share a slot. */
  lemma {:induction false} SlotsDiffer(p: nat, q: nat, m: nat)
    requires m > 0 && p < q < p + m
    ensures Slot(p, m) != Slot(q, m)
    decreases p
  {
    if p >= m {
      SlotsDiffer(p - m, q - m, m);
    } else if q >= m {
      assert Slot(q, m) == Slot(q - m, m) == q - m;
    }
  }

  /** The source's test for a power of two, n & (n - 1) == 0, accepts exactly the powers of two. */
  predicate HasSingleBit(n: nat) { n > 0 && BitAnd(n, n - 1) == 0 }

  lemma {:induction false} SingleBitIsPowerOfTwo(n: nat) returns (k: nat)
    requires HasSingleBit(n)
    ensures n == Pow2(k)
  {
    if n == 1 {
      k := 0;
    } else if n % 2 == 0 {
      assert (n - 1) / 2 == n / 2 - 1;
      var j := SingleBitIsPowerOfTwo(n / 2);
      k := j + 1;
    } else {
      k := 0;
      assert (n - 1) / 2 == n / 2 && n / 2 > 0;
      AndSelf(n / 2);
    }
  }

  lemma {:induction false} PowerOfTwoHasSingleBit(k: nat)
    ensures HasSingleBit(Pow2(k))
  {
    Pow2Monotone(0, k);
    AndLowMask(Pow2(k), k);
    assert Pow2(k) % Pow2(k) == 0;
  }

  /** A mask of the form 10 followed by k ones tests those k bits and the bit above the gap. */
  lemma {:induction false} AndGapMask(x: nat, q: nat, r: nat, k: nat)
    requires r < Pow2(k) && x == Pow2(k) * q + r
    ensures BitAnd(x, 3 * Pow2(k) - 1) == 0 <==> r == 0 && BitAnd(q, 2) == 0
    decreases k
  {
    if k > 0 {
      var m := Pow2(k - 1);
      Halved(x, m, q, r);
      AndGapMask(x / 2, q, r / 2, k - 1);
      AndOddStep(x, 3 * Pow2(k) - 1, 3 * m - 1);
    }
  }

  /** An odd mask keeps the last digit. */
  lemma AndOddStep(a: nat, b: nat, h: nat)
    requires b == 2 * h + 1
    ensures BitAnd(a, b) == 2 * BitAnd(a / 2, h) + a % 2
  {
    assert b / 2 == h && b % 2 == 1;
  }

  lemma {:induction false} AndSelf(n: nat)
    ensures BitAnd(n, n) == n
  {
    if n > 0 {
      AndSelf(n / 2);
      if n % 2 == 1 {
        AndOddStep(n, n, n / 2);
      } else {
        AndEvenStep(n, n, n / 2);
      }
    }
  }

  /** An even mask clears the last digit. */
  lemma AndEvenStep(a: nat, b: nat, h: nat)
    requires b == 2 * h
    ensures BitAnd(a, b) == 2 * BitAnd(a / 2, h)
  {
    assert b / 2 == h && b % 2 == 0;
  }
}
