// Index and word arithmetic used by the bounded queue: `pos & mask`, the
// power-of-two test of the queue's constructor, and size_t wrap-around.
module RingArithmetic {

  /** 2^64, the modulus of size_t. */
  const WORD: nat := 0x1_0000_0000_0000_0000

  /** The ring slot of a position. Defined by repeated subtraction, which keeps
      the reasoning about an arbitrary ring size linear; see SlotIsMod. */
  function Slot(pos: nat, n: nat): (i: nat)
    requires n > 0
    ensures i < n
  {
    if pos < n then pos else Slot(pos - n, n)
  }

  lemma {:induction false} SlotIsMod(pos: nat, n: nat)
    requires n > 0
    ensures Slot(pos, n) == pos % n
  {
    if pos >= n {
      SlotIsMod(pos - n, n);
      ModDropsMultiple(pos, n);
    }
  }

  lemma ModDropsMultiple(a: nat, n: nat)
    requires 0 < n <= a
    ensures a % n == (a - n) % n
  {
    var q, r := (a - n) / n, (a - n) % n;
    assert a == n * (q + 1) + r;
    ModUnique(a, n, q + 1, r);
  }

  lemma MulAtLeast(n: nat, d: int)
    requires d >= 1
    ensures n * d >= n
  {
    assert n * d == n + n * (d - 1);
  }

  lemma ModUnique(a: int, n: nat, q: int, r: int)
    requires n > 0 && a == n * q + r && 0 <= r < n
    ensures a % n == r && a / n == q
  {
    var q', r' := a / n, a % n;
    assert n * q' + r' == n * q + r;
    QuotientUnique(n, q, r, q', r');
  }

  lemma QuotientUnique(n: nat, q: int, r: int, q': int, r': int)
    requires n > 0 && 0 <= r < n && 0 <= r' < n && n * q' + r' == n * q + r
    ensures q == q' && r == r'
  {
    assert n * (q - q') == r' - r;
    assert n * (q' - q) == r - r';
    if q > q' {
      MulAtLeast(n, q - q');
    } else if q < q' {
      MulAtLeast(n, q' - q);
    }
  }

  /** Two positions that share a slot are at least a whole ring apart. */
  lemma {:induction false} SlotGap(a: nat, b: nat, n: nat)
    requires n > 0 && a < b && Slot(a, n) == Slot(b, n)
    ensures a + n <= b
  {
    if a >= n {
      SlotGap(a - n, b - n, n);
    }
  }

  lemma SlotUnique(a: nat, b: nat, n: nat)
    requires n > 0 && Slot(a, n) == Slot(b, n)
    ensures a == b || a + n <= b || b + n <= a
  {
    if a < b { SlotGap(a, b, n); } else if b < a { SlotGap(b, a, n); }
  }

  /** In a ring of two or more cells, neighbours never share a slot. */
  lemma SlotNextDiffers(a: nat, n: nat)
    requires n >= 2
    ensures Slot(a + 1, n) != Slot(a, n)
  {
    if Slot(a + 1, n) == Slot(a, n) {
      SlotGap(a, a + 1, n);
    }
  }

  /** Bitwise `and` of two size_t values. */
  function And(a: nat, b: nat): nat
  {
    if a == 0 || b == 0 then 0
    else 2 * And(a / 2, b / 2) + (if a % 2 == 1 && b % 2 == 1 then 1 else 0)
  }

  function Pow2(k: nat): (p: nat)
    ensures p > 0
  {
    if k == 0 then 1 else 2 * Pow2(k - 1)
  }

  /** The test made by the queue's constructor (mpmc_bounded_q.h:68). */
  predicate ValidQueueSize(size: nat)
  {
    size >= 2 && And(size, size - 1) == 0
  }

  lemma {:induction false} AndPow2IsZero(k: nat)
    ensures And(Pow2(k), Pow2(k) - 1) == 0
  {
    if k > 0 {
      AndPow2IsZero(k - 1);
      assert (Pow2(k) - 1) / 2 == Pow2(k - 1) - 1;
    }
  }

  lemma {:induction false} AndZeroIsPow2(size: nat) returns (k: nat)
    requires size >= 1 && And(size, size - 1) == 0
    ensures size == Pow2(k)
  {
    if size == 1 {
      k := 0;
    } else if size % 2 == 1 {
      // an odd size above 1 keeps the high bits of size - 1
      assert (size - 1) / 2 == size / 2;
      AndSelfPositive(size / 2);
      assert false;
    } else {
      assert (size - 1) / 2 == size / 2 - 1;
      k := AndZeroIsPow2(size / 2);
      k := k + 1;
    }
  }

  lemma {:induction false} AndSelfPositive(a: nat)
    ensures And(a, a) == a
  {
    if a > 0 {
      AndSelfPositive(a / 2);
    }
  }

  /** The constructor accepts exactly the powers of two from 2 up. */
  lemma ConstructorAcceptsPowersOfTwo(size: nat)
    ensures ValidQueueSize(size) <==> exists k: nat :: k >= 1 && size == Pow2(k)
  {
    if ValidQueueSize(size) {
      var k := AndZeroIsPow2(size);
      assert k >= 1;
    }
    forall k: nat | k >= 1 && size == Pow2(k) ensures ValidQueueSize(size) {
      AndPow2IsZero(k);
    }
  }

  lemma HalfRemainder(pos: nat, p: nat)
    requires p > 0
    ensures pos % (2 * p) == 2 * ((pos / 2) % p) + pos % 2
  {
    var h := pos / 2;
    var q, r := h / p, h % p;
    assert h == p * q + r;
    assert 2 * (p * q) == (2 * p) * q;
    ModUnique(pos, 2 * p, q, 2 * r + pos % 2);
  }

  lemma {:induction false} MaskPow2(pos: nat, k: nat)
    ensures And(pos, Pow2(k) - 1) == pos % Pow2(k)
  {
    if k == 0 {
      ModUnique(pos, 1, pos, 0);
    } else if pos == 0 {
      ModUnique(0, Pow2(k), 0, 0);
    } else {
      MaskPow2(pos / 2, k - 1);
      HalfRemainder(pos, Pow2(k - 1));
      assert (Pow2(k) - 1) / 2 == Pow2(k - 1) - 1;
    }
  }

  /** For every accepted size, `pos & (size - 1)` is the remainder of pos, and
      so the slot used throughout the model. */
  lemma MaskSelectsSlot(pos: nat, size: nat)
    requires ValidQueueSize(size)
    ensures And(pos, size - 1) == pos % size == Slot(pos, size)
  {
    var k := AndZeroIsPow2(size);
    MaskPow2(pos, k);
    SlotIsMod(pos, size);
  }

  /** Adding a whole number of rings does not change the slot. */
  lemma {:induction false} SlotAddMultiple(pos: nat, n: nat, m: nat)
    requires n > 0
    ensures Slot(pos + m * n, n) == Slot(pos, n)
    decreases m
  {
    if m > 0 {
      SlotAddMultiple(pos, n, m - 1);
      assert pos + m * n == (pos + (m - 1) * n) + n;
    }
  }

  lemma {:induction false} Pow2Add(a: nat, b: nat)
    ensures Pow2(a + b) == Pow2(a) * Pow2(b)
  {
    if a > 0 {
      Pow2Add(a - 1, b);
      assert Pow2(a + b) == 2 * (Pow2(a - 1) * Pow2(b));
    }
  }

  lemma {:induction false} Pow2Monotone(a: nat, b: nat)
    requires Pow2(a) <= Pow2(b)
    ensures a <= b
  {
    if a > 0 && b > 0 {
      Pow2Monotone(a - 1, b - 1);
    }
  }

  lemma WordIsPow2()
    ensures WORD == Pow2(64)
  {
    assert Pow2(8) == 256;
    Pow2Add(8, 8);
    Pow2Add(16, 16);
    Pow2Add(32, 32);
  }

  /** Masking a wrapped position and masking the unbounded one select the same
      cell, because the ring size divides 2^64. */
  lemma SlotIgnoresWrap(pos: nat, size: nat)
    requires ValidQueueSize(size) && size <= WORD
    ensures Slot(pos % WORD, size) == Slot(pos, size)
  {
    var k := AndZeroIsPow2(size);
    WordIsPow2();
    Pow2Monotone(k, 64);
    Pow2Add(64 - k, k);
    WholeWordsAreWholeRings(pos / WORD, Pow2(64 - k), size);
    SlotAddMultiple(pos % WORD, size, pos / WORD * Pow2(64 - k));
  }

  lemma WholeWordsAreWholeRings(q: nat, c: nat, size: nat)
    requires WORD == c * size
    ensures q * WORD == (q * c) * size
  {
  }
}
