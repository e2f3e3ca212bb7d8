// parse_nonnegative_int of format.h: reads an argument index, a width or a
// precision from a NUL-terminated format string.
module DecimalParse {
  import opened DecimalDigits

  const UINT_RANGE: nat := 0x1_0000_0000
  const INT_MAX: nat := 0x7fff_ffff

  /** `s[i]` of a C string: NUL from its end on. */
  function At(s: string, i: nat): char
  {
    if i < |s| then s[i] else '\0'
  }

  /** Where the digits that start at i end. */
  function RunEnd(s: string, i: nat): (end: nat)
    requires i <= |s|
    ensures i <= end <= |s|
    ensures forall k :: i <= k < end ==> IsDigit(s[k])
    ensures end < |s| ==> !IsDigit(s[end])
    decreases |s| - i
  {
    if i < |s| && IsDigit(s[i]) then RunEnd(s, i + 1) else i
  }

  predicate AllDigits(d: string) { forall i :: 0 <= i < |d| ==> IsDigit(d[i]) }

  /** The first k digits, kept in a 32-bit unsigned. */
  function Wrapped(d: string, k: nat): nat
    requires AllDigits(d) && k <= |d|
  {
    Value(d[..k]) % UINT_RANGE
  }

  /** No digit among the first k makes the kept value smaller, which is how the
      source looks for overflow. */
  predicate Rising(d: string, k: nat)
    requires AllDigits(d) && k <= |d|
  {
    forall j :: 0 <= j < k ==> Wrapped(d, j) <= Wrapped(d, j + 1)
  }

  datatype Reading = Number(value: nat) | TooBig

  /** What is read from a run of digits. */
  function Read(d: string): Reading
    requires AllDigits(d)
  {
    if Rising(d, |d|) && Wrapped(d, |d|) <= INT_MAX then Number(Wrapped(d, |d|)) else TooBig
  }

  lemma WrappedStep(d: string, k: nat)
    requires AllDigits(d) && k < |d|
    ensures Wrapped(d, k + 1) == (Wrapped(d, k) * 10 + DigitValue(d[k])) % UINT_RANGE
  {
    assert d[..k + 1][..k] == d[..k];
    KeepsResidue(Value(d[..k]), DigitValue(d[k]));
  }

  lemma KeepsResidue(v: nat, c: nat)
    ensures (10 * v + c) % UINT_RANGE == (v % UINT_RANGE * 10 + c) % UINT_RANGE
  {
  }

  method ParseNonnegativeInt(s: string, start: nat) returns (r: Reading, next: nat)
    requires start < |s| && IsDigit(s[start])
    ensures r == Read(s[start..RunEnd(s, start)])
    ensures r.Number? ==> next == RunEnd(s, start)
  {
    ghost var end := RunEnd(s, start);
    ghost var d := s[start..end];
    var value := 0;
    next := start;
    while true
      invariant start <= next < end
      invariant value == Wrapped(d, next - start) && Rising(d, next - start)
      decreases end - next
    {
      WrappedStep(d, next - start);
      var newValue := (value * 10 + DigitValue(s[next])) % UINT_RANGE;
      next := next + 1;
      if newValue < value {
        assert !Rising(d, |d|);
        value := UINT_RANGE - 1;
        break;
      }
      value := newValue;
      if !IsDigit(At(s, next)) {
        break;
      }
    }
    r := if value > INT_MAX then TooBig else Number(value);
  }

  // ---- Which numbers are read right ----

  lemma {:induction false} PrefixBelow(d: string, k: nat)
    requires AllDigits(d) && k <= |d|
    ensures Value(d[..k]) <= Value(d)
    decreases |d|
  {
    if k < |d| {
      PrefixBelow(d[..|d| - 1], k);
      assert d[..|d| - 1][..k] == d[..k];
    } else {
      assert d[..k] == d;
    }
  }

  lemma WrappedIsValue(d: string, k: nat)
    requires AllDigits(d) && k <= |d| && Value(d) < UINT_RANGE
    ensures Wrapped(d, k) == Value(d[..k])
  {
    PrefixBelow(d, k);
  }

  lemma PrefixGrows(d: string, k: nat)
    requires AllDigits(d) && k < |d|
    ensures Value(d[..k]) <= Value(d[..k + 1])
  {
    assert d[..k + 1][..k] == d[..k];
  }

  /** Below 2^32 nothing wraps: a number is read, and read right, exactly when
      it is at most INT_MAX. */
  lemma ReadBelowWrap(d: string)
    requires AllDigits(d) && Value(d) < UINT_RANGE
    ensures Read(d) == if Value(d) <= 0x7fff_ffff then Number(Value(d)) else TooBig
  {
    hide Value, Wrapped;
    forall k | 0 <= k < |d| ensures Wrapped(d, k) <= Wrapped(d, k + 1) {
      WrappedIsValue(d, k);
      WrappedIsValue(d, k + 1);
      PrefixGrows(d, k);
    }
    WrappedIsValue(d, |d|);
    assert d[..|d|] == d;
  }

  /** What reading ought to give. */
  function Meant(d: string): Reading
    requires AllDigits(d)
  {
    if Value(d) <= INT_MAX then Number(Value(d)) else TooBig
  }

  /** v without its last k digits. */
  function Shortened(v: nat, k: nat): nat
  {
    if k == 0 then v else Shortened(v, k - 1) / 10
  }

  /** Kept in 32 bits, v without its last k digits is not smaller than with one
      digit less. */
  predicate StepUnseen(v: nat, k: nat)
  {
    Shortened(v, k + 1) % UINT_RANGE <= Shortened(v, k) % UINT_RANGE
  }

  /** The test sees no wrap on the way to v. */
  ghost predicate WrapsUnseen(v: nat)
  {
    forall k: nat :: StepUnseen(v, k)
  }

  /** v is too big, no wrap is seen, and what is left of v looks small enough. */
  ghost predicate Misread(v: nat)
  {
    v >= UINT_RANGE && v % UINT_RANGE <= INT_MAX && WrapsUnseen(v)
  }

  /** A prefix of the digits is the number without its last digits. */
  lemma {:induction false} PrefixIsShortened(d: string, k: nat)
    requires AllDigits(d) && k <= |d|
    ensures Value(d[..|d| - k]) == Shortened(Value(d), k)
  {
    if k == 0 {
      assert d[..|d|] == d;
    } else {
      PrefixIsShortened(d, k - 1);
      var front := d[..|d| - (k - 1)];
      assert front[..|front| - 1] == d[..|d| - k];
    }
  }

  lemma {:induction false} NothingLeft(d: string, k: nat)
    requires AllDigits(d) && k >= |d|
    ensures Shortened(Value(d), k) == 0
  {
    if k == |d| {
      PrefixIsShortened(d, k);
    } else {
      NothingLeft(d, k - 1);
    }
  }

  lemma WrappedIsShortened(d: string, k: nat)
    requires AllDigits(d) && k <= |d|
    ensures Wrapped(d, |d| - k) == Shortened(Value(d), k) % UINT_RANGE
  {
    PrefixIsShortened(d, k);
  }

  /** Whether the test sees a wrap depends on the number alone. */
  lemma RisingIffUnseen(d: string)
    requires AllDigits(d)
    ensures Rising(d, |d|) <==> WrapsUnseen(Value(d))
  {
    hide Shortened, Wrapped, Value;
    var v := Value(d);
    if Rising(d, |d|) {
      forall k: nat ensures StepUnseen(v, k) {
        if k < |d| {
          WrappedIsShortened(d, k);
          WrappedIsShortened(d, k + 1);
          assert Wrapped(d, |d| - (k + 1)) <= Wrapped(d, |d| - (k + 1) + 1);
        } else {
          NothingLeft(d, k);
          NothingLeft(d, k + 1);
        }
      }
    }
    if WrapsUnseen(v) {
      forall j | 0 <= j < |d| ensures Wrapped(d, j) <= Wrapped(d, j + 1) {
        var k := |d| - 1 - j;
        WrappedIsShortened(d, k);
        WrappedIsShortened(d, k + 1);
        assert StepUnseen(v, k);
      }
    }
  }

  /** Which numbers are read wrong, leading zeros or not. */
  lemma ReadIsMeantIff(d: string)
    requires AllDigits(d)
    ensures Read(d) == Meant(d) <==> !Misread(Value(d))
  {
    RisingIffUnseen(d);
    assert d[..|d|] == d;
    hide WrapsUnseen, Rising;
    if Value(d) < UINT_RANGE {
      ReadBelowWrap(d);
    }
  }

  lemma {:induction false} ShortenedAtMostTenth(v: nat, k: nat)
    requires k >= 1
    ensures Shortened(v, k) <= v / 10
  {
    if k > 1 {
      ShortenedAtMostTenth(v, k - 1);
    }
  }

  /** Up to ten times 2^32 only the last digit can wrap: the numbers read wrong
      are those for which that wrap does not make the value smaller. */
  lemma MisreadBelowTenRanges(v: nat)
    requires UINT_RANGE <= v < 10 * UINT_RANGE
    ensures Misread(v) <==> v / 10 <= v % UINT_RANGE <= INT_MAX
  {
    assert v / 10 < UINT_RANGE;
    assert StepUnseen(v, 0) <==> v / 10 <= v % UINT_RANGE by {
      assert Shortened(v, 0) == v && Shortened(v, 0 + 1) == v / 10;
    }
    hide StepUnseen;
    forall k: nat | k >= 1 ensures StepUnseen(v, k) {
      LaterStepUnseen(v, k);
    }
  }

  lemma LaterStepUnseen(v: nat, k: nat)
    requires v < 10 * UINT_RANGE && k >= 1
    ensures StepUnseen(v, k)
  {
    ShortenedAtMostTenth(v, k);
    var a := Shortened(v, k);
    assert Shortened(v, k + 1) == a / 10;
    hide Shortened;
    assert a < UINT_RANGE;
  }

  /** Printing and reading undo each other exactly up to INT_MAX. */
  lemma ReadsBackDecimal(n: nat)
    ensures Read(Decimal(n)) == Number(n) <==> n <= 0x7fff_ffff
  {
    ValueOfDecimal(n);
    if n <= INT_MAX {
      ReadBelowWrap(Decimal(n));
    }
  }

  /** The overflow test misses 6000000000, which is read as 6000000000 - 2^32
      instead of being refused. */
  lemma MissedOverflow()
    ensures Misread(6000000000) && Read(Decimal(6000000000)) == Number(1705032704)
  {
    var d := Decimal(6000000000);
    MisreadBelowTenRanges(6000000000);
    ValueOfDecimal(6000000000);
    ReadIsMeantIff(d);
    assert d[..|d|] == d;
  }
}
