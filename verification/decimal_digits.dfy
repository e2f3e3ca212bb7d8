// Decimal digits: what they are, and the two count_digits of format.h.
module DecimalDigits {
  import opened RingArithmetic

  function Digit(d: nat): char
    requires d < 10
  {
    '0' + d as char
  }

  predicate IsDigit(c: char) { '0' <= c <= '9' }

  /** The decimal form of n, without leading zeros. */
  function Decimal(n: nat): (s: string)
    ensures |s| == NumDigits(n)
    ensures forall i :: 0 <= i < |s| ==> IsDigit(s[i])
  {
    if n < 10 then [Digit(n)] else Decimal(n / 10) + [Digit(n % 10)]
  }

  function NumDigits(n: nat): (k: nat)
    ensures k >= 1
  {
    if n < 10 then 1 else NumDigits(n / 10) + 1
  }

  function DigitValue(c: char): (d: nat)
    requires IsDigit(c)
    ensures d < 10 && Digit(d) == c
  {
    c as int - '0' as int
  }

  /** The number a string of digits denotes. */
  function Value(s: string): nat
    requires forall i :: 0 <= i < |s| ==> IsDigit(s[i])
  {
    if s == "" then 0 else 10 * Value(s[..|s| - 1]) + DigitValue(s[|s| - 1])
  }

  lemma {:induction false} ValueOfDecimal(n: nat)
    ensures Value(Decimal(n)) == n
  {
    if n >= 10 {
      ValueOfDecimal(n / 10);
      assert Decimal(n)[..|Decimal(n)| - 1] == Decimal(n / 10);
    }
  }

  /** Different numbers print differently. */
  lemma DecimalInjective(a: nat, b: nat)
    requires Decimal(a) == Decimal(b)
    ensures a == b
  {
    ValueOfDecimal(a);
    ValueOfDecimal(b);
  }

  function Pow10(k: nat): (p: nat)
    ensures p >= 1
  {
    if k == 0 then 1 else 10 * Pow10(k - 1)
  }

  /** n has k digits exactly when 10^(k-1) <= n < 10^k, and 0 has one. */
  lemma {:induction false} NumDigitsIff(n: nat, k: nat)
    requires k >= 1
    ensures NumDigits(n) == k <==> (k == 1 || Pow10(k - 1) <= n) && n < Pow10(k)
  {
    if n >= 10 && k >= 2 {
      NumDigitsIff(n / 10, k - 1);
      assert Pow10(k) == 10 * Pow10(k - 1);
    } else if k >= 2 {
      Pow10AtLeastTen(k - 1);
    }
  }

  lemma Pow10AtLeastTen(k: nat)
    requires k >= 1
    ensures Pow10(k) >= 10
  {
  }

  // ---- Counting with a bit length, a multiplication and a table ----

  const POWERS_OF_10_32: seq<nat> :=
    [0, 10, 100, 1000, 10000, 100000, 1000000, 10000000, 100000000, 1000000000]

  const POWERS_OF_10_64: seq<nat> := POWERS_OF_10_32 +
    [10000000000, 100000000000, 1000000000000, 10000000000000, 100000000000000,
     1000000000000000, 10000000000000000, 100000000000000000, 1000000000000000000,
     10000000000000000000]

  /** Word width minus the number of leading zeros. */
  function BitLength(n: nat): (b: nat)
    ensures n < Pow2(b) && (n > 0 ==> b > 0 && Pow2(b - 1) <= n)
  {
    if n == 0 then 0 else BitLength(n / 2) + 1
  }

  /** The index computed by `* 1233 >> 12`, about bits * log10(2). */
  function TableIndex(bits: nat): nat { bits * 1233 / 4096 }

  /** n | 1 */
  function SetLowBit(n: nat): nat { if n % 2 == 0 then n + 1 else n }

  function CountDigits(n: nat, powers: seq<nat>): nat
    requires TableIndex(BitLength(SetLowBit(n))) < |powers|
  {
    var t := TableIndex(BitLength(SetLowBit(n)));
    t - (if n < powers[t] then 1 else 0) + 1
  }

  /** The index brackets every number of that many bits. */
  predicate IndexBrackets(bits: nat)
    requires bits >= 1
  {
    var t := TableIndex(bits);
    (t >= 1 ==> Pow10(t - 1) < Pow2(bits - 1)) && Pow2(bits) <= Pow10(t + 1)
  }

  /** The largest bit length with table index t, for t = 0 .. 19. */
  const LAST_BITS: seq<nat> := [3, 6, 9, 13, 16, 19, 23, 26, 29, 33, 36, 39, 43, 46, 49, 53, 56, 59, 63, 66]

  /** 10^t < 2^LAST_BITS[t] <= 10^(t+1): the index changes in step with the
      number of digits. */
  predicate Sandwiched(t: nat)
    requires t < 20
  {
    Pow10(t) < Pow2(LAST_BITS[t]) <= Pow10(t + 1)
  }

  /** Three or four doublings, and one factor of ten. */
  lemma NextPowers(b: nat, t: nat)
    ensures Pow2(b + 3) == 8 * Pow2(b) && Pow2(b + 4) == 16 * Pow2(b) && Pow10(t + 1) == 10 * Pow10(t)
  {
    Pow2Add(3, b);
    Pow2Add(4, b);
    assert Pow2(3) == 8 && Pow2(4) == 16;
  }

  lemma PowersTo5()
    ensures forall t :: 0 <= t < 5 ==> Sandwiched(t)
    ensures forall t :: 1 <= t < 5 ==> POWERS_OF_10_64[t] == Pow10(t)
    ensures Pow2(16) == 65536 && Pow10(5) == 100000
  {
    assert Pow2(0) == 1 && Pow10(0) == 1;
    hide Pow2, Pow10;
    NextPowers(0, 0);
    NextPowers(3, 1);
    NextPowers(6, 2);
    NextPowers(9, 3);
    NextPowers(13, 4);
    assert forall t :: 0 <= t < 5 ==> LAST_BITS[t] in LAST_BITS[0..5];
  }

  lemma PowersTo10()
    ensures forall t :: 5 <= t < 10 ==> Sandwiched(t)
    ensures forall t :: 5 <= t < 10 ==> POWERS_OF_10_64[t] == Pow10(t)
    ensures Pow2(33) == 8589934592 && Pow10(10) == 10000000000
  {
    PowersTo5();
    hide Pow2, Pow10;
    NextPowers(16, 5);
    NextPowers(19, 6);
    NextPowers(23, 7);
    NextPowers(26, 8);
    NextPowers(29, 9);
    assert forall t :: 5 <= t < 10 ==> LAST_BITS[t] in LAST_BITS[5..10];
  }

  lemma PowersTo15()
    ensures forall t :: 10 <= t < 15 ==> Sandwiched(t)
    ensures forall t :: 10 <= t < 15 ==> POWERS_OF_10_64[t] == Pow10(t)
    ensures Pow2(49) == 562949953421312 && Pow10(15) == 1000000000000000
  {
    PowersTo10();
    hide Pow2, Pow10;
    NextPowers(33, 10);
    NextPowers(36, 11);
    NextPowers(39, 12);
    NextPowers(43, 13);
    NextPowers(46, 14);
    assert forall t :: 10 <= t < 15 ==> LAST_BITS[t] in LAST_BITS[10..15];
  }

  lemma PowersTo20()
    ensures forall t :: 15 <= t < 20 ==> Sandwiched(t)
    ensures forall t :: 15 <= t < 20 ==> POWERS_OF_10_64[t] == Pow10(t)
    ensures Pow2(66) == 73786976294838206464 && Pow10(20) == 100000000000000000000
  {
    PowersTo15();
    hide Pow2, Pow10;
    NextPowers(49, 15);
    NextPowers(53, 16);
    NextPowers(56, 17);
    NextPowers(59, 18);
    NextPowers(63, 19);
    assert forall t :: 15 <= t < 20 ==> LAST_BITS[t] in LAST_BITS[15..20];
  }

  lemma SandwichesHold(t: nat)
    requires t < 20
    ensures Sandwiched(t) && (t >= 1 ==> POWERS_OF_10_64[t] == Pow10(t))
  {
    PowersTo5();
    PowersTo10();
    PowersTo15();
    PowersTo20();
  }

  lemma BitsOfIndex(bits: nat, t: nat)
    requires TableIndex(bits) == t < 20
    ensures bits <= LAST_BITS[t] && (t >= 1 ==> LAST_BITS[t - 1] < bits)
  {
    assert forall i :: 0 <= i < 20 ==> TableIndex(LAST_BITS[i]) == i && TableIndex(LAST_BITS[i] + 1) == i + 1;
  }

  lemma Pow2Ordered(a: nat, b: nat)
    requires a <= b
    ensures Pow2(a) <= Pow2(b)
  {
    if Pow2(b) < Pow2(a) {
      Pow2Monotone(b, a);
    }
  }

  lemma IndexBracketsNumbers(bits: nat)
    requires 1 <= bits <= 66
    ensures IndexBrackets(bits)
  {
    var t := TableIndex(bits);
    BitsBelow(bits, t);
    if t >= 1 {
      BitsAbove(bits, t);
    }
  }

  lemma BitsBelow(bits: nat, t: nat)
    requires TableIndex(bits) == t < 20
    ensures Pow2(bits) <= Pow10(t + 1)
  {
    BitsOfIndex(bits, t);
    SandwichesHold(t);
    var last := LAST_BITS[t];
    assert bits <= last && Pow2(last) <= Pow10(t + 1);
    hide *;
    Pow2Ordered(bits, last);
  }

  lemma BitsAbove(bits: nat, t: nat)
    requires TableIndex(bits) == t < 20 && t >= 1
    ensures bits >= 1 && Pow10(t - 1) < Pow2(bits - 1)
  {
    BitsOfIndex(bits, t);
    SandwichesHold(t - 1);
    var before := LAST_BITS[t - 1];
    assert before < bits && Pow10(t - 1) < Pow2(before);
    hide *;
    Pow2Ordered(before, bits - 1);
  }

  lemma BitLengthWithin(n: nat, width: nat)
    requires n < Pow2(width)
    ensures BitLength(n) <= width
  {
    if n > 0 && BitLength(n) > width {
      Pow2Ordered(width, BitLength(n) - 1);
    }
  }

  lemma SetLowBitWithin(n: nat, width: nat)
    requires n < Pow2(width) && width >= 1
    ensures SetLowBit(n) < Pow2(width)
  {
    assert Pow2(width) == 2 * Pow2(width - 1);
  }

  lemma DigitsBetween(n: nat, t: nat)
    requires (t >= 1 ==> Pow10(t - 1) <= n) && n < Pow10(t + 1)
    ensures NumDigits(n) == if t >= 1 && n < Pow10(t) then t else t + 1
  {
    NumDigitsIff(n, t + 1);
    if t >= 1 {
      NumDigitsIff(n, t);
    }
  }

  predicate TableFor(powers: seq<nat>, width: nat)
  {
    (width == 64 && powers == POWERS_OF_10_64) || (width == 32 && powers == POWERS_OF_10_32)
  }

  lemma TableEntries(powers: seq<nat>, width: nat, t: nat)
    requires TableFor(powers, width) && t < |powers|
    ensures t < 20 && powers[t] == if t == 0 then 0 else Pow10(t)
  {
    hide Pow10, Sandwiched;
    SandwichesHold(t);
  }

  lemma IndexInTable(powers: seq<nat>, width: nat, n: nat)
    requires TableFor(powers, width) && n < Pow2(width)
    ensures TableIndex(BitLength(SetLowBit(n))) < |powers| <= 20
  {
    SetLowBitWithin(n, width);
    BitLengthWithin(SetLowBit(n), width);
    hide Pow2, BitLength, SetLowBit;
  }

  lemma DigitsFromBits(n: nat, bits: nat)
    requires 1 <= bits <= 66 && Pow2(bits - 1) <= SetLowBit(n) < Pow2(bits)
    ensures var t := TableIndex(bits);
      NumDigits(n) == if t >= 1 && n < Pow10(t) then t else t + 1
  {
    IndexBracketsNumbers(bits);
    assert n <= SetLowBit(n) <= n + 1 && IndexBrackets(bits);
    hide Pow2, Pow10, NumDigits, SetLowBit;
    DigitsBetween(n, TableIndex(bits));
  }

  /** The multiply-and-shift form indexes inside its table and counts the
      decimal digits of every word, 0 included. */
  lemma CountDigitsIsNumDigits(n: nat, width: nat, powers: seq<nat>)
    requires TableFor(powers, width) && n < Pow2(width)
    ensures TableIndex(BitLength(SetLowBit(n))) < |powers|
    ensures CountDigits(n, powers) == NumDigits(n)
  {
    IndexInTable(powers, width, n);
    assert SetLowBit(n) > 0;
    hide Pow2, Pow10, NumDigits, BitLength, TableFor, SetLowBit;
    var bits := BitLength(SetLowBit(n));
    TableEntries(powers, width, TableIndex(bits));
    DigitsFromBits(n, bits);
  }

  /** The fallback form, used when there is no count-leading-zeros builtin. */
  method CountDigitsByLoop(value: nat) returns (count: nat)
    ensures count == NumDigits(value)
  {
    var n := value;
    count := 1;
    while true
      invariant count >= 1 && NumDigits(value) == NumDigits(n) + count - 1
      decreases n
    {
      FewDigits(n);
      if n < 10 { return count; }
      if n < 100 { return count + 1; }
      if n < 1000 { return count + 2; }
      if n < 10000 { return count + 3; }
      FourDigitsFewer(n);
      n := n / 10000;
      count := count + 4;
    }
  }

  lemma FewDigits(n: nat)
    ensures n < 10 ==> NumDigits(n) == 1
    ensures 10 <= n < 100 ==> NumDigits(n) == 2
    ensures 100 <= n < 1000 ==> NumDigits(n) == 3
    ensures 1000 <= n < 10000 ==> NumDigits(n) == 4
  {
    if n < 10000 {
      NumDigitsIff(n, 2);
      NumDigitsIff(n, 3);
      NumDigitsIff(n, 4);
      assert Pow10(1) == 10 && Pow10(2) == 100;
      assert Pow10(3) == 1000 && Pow10(4) == 10000;
    }
  }

  lemma FourDigitsFewer(n: nat)
    requires n >= 10000
    ensures NumDigits(n) == NumDigits(n / 10000) + 4
  {
    assert NumDigits(n) == NumDigits(n / 10) + 1;
    assert NumDigits(n / 10) == NumDigits(n / 100) + 1 by { assert n / 10 / 10 == n / 100; }
    assert NumDigits(n / 100) == NumDigits(n / 1000) + 1 by { assert n / 100 / 10 == n / 1000; }
    assert NumDigits(n / 1000) == NumDigits(n / 10000) + 1 by { assert n / 1000 / 10 == n / 10000; }
  }
}
