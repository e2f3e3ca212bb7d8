// Decimal printing in format.h: format_decimal with its thousands separator,
// and the writer members that reserve space for it.
module DecimalFormat {
  import opened DecimalDigits

  // ---- What is printed ----

  /** Digits in groups of three, counted from the right. */
  function Grouped(digits: string, sep: string): string
  {
    if |digits| <= 3 then digits
    else Grouped(digits[..|digits| - 3], sep) + sep + digits[|digits| - 3..]
  }

  /** Takes a separator of the given length out again after every full group. */
  function Ungrouped(text: string, sepLength: nat): string
  {
    if |text| <= 3 + sepLength then text
    else Ungrouped(text[..|text| - 3 - sepLength], sepLength) + text[|text| - 3..]
  }

  lemma {:induction false} GroupedLength(digits: string, sep: string)
    requires |digits| >= 1
    ensures |Grouped(digits, sep)| == |digits| + |sep| * ((|digits| - 1) / 3)
  {
    if |digits| > 3 {
      GroupedLength(digits[..|digits| - 3], sep);
      OneMoreGroup(|sep|, |digits|);
    }
  }

  lemma OneMoreGroup(k: nat, digits: nat)
    requires digits > 3
    ensures k * ((digits - 1) / 3) == k * ((digits - 4) / 3) + k
  {
    var groups := (digits - 4) / 3;
    assert (digits - 1) / 3 == groups + 1;
    assert k * (groups + 1) == k * groups + k;
  }

  /** Removing the separators gives the plain digits back. */
  lemma {:induction false} UngroupedGrouped(digits: string, sep: string)
    requires digits != ""
    ensures Ungrouped(Grouped(digits, sep), |sep|) == digits
  {
    if |digits| > 3 {
      var front, back := digits[..|digits| - 3], digits[|digits| - 3..];
      UngroupedGrouped(front, sep);
      var text := Grouped(digits, sep);
      assert text == Grouped(front, sep) + sep + back;
      GroupedLength(front, sep);
      assert |text| > 3 + |sep|;
      assert text[..|text| - 3 - |sep|] == Grouped(front, sep);
      assert text[|text| - 3..] == back;
    }
  }

  lemma {:induction false} GroupedWithoutSeparator(digits: string)
    ensures Grouped(digits, "") == digits
  {
    if |digits| > 3 {
      GroupedWithoutSeparator(digits[..|digits| - 3]);
    }
  }

  // ---- One digit at a time, as the backwards writer produces it ----

  /** What goes before the i-th digit from the right, once it is written. */
  function Mark(i: nat, sep: string): string
  {
    if i % 3 == 0 then sep else ""
  }

  /** The text of n when i lower digits are already in place. */
  function Text(n: nat, i: nat, sep: string): (s: string)
    ensures |s| >= 1
  {
    if n < 10 then [Digit(n)]
    else Text(n / 10, i + 1, sep) + Mark(i + 1, sep) + [Digit(n % 10)]
  }

  lemma {:induction false} TextPeriod(n: nat, i: nat, sep: string)
    ensures Text(n, i + 3, sep) == Text(n, i, sep)
  {
    if n >= 10 {
      TextPeriod(n / 10, i + 1, sep);
    }
  }

  lemma TextThreeSteps(n: nat, sep: string)
    requires n >= 1000
    ensures Text(n, 0, sep) == Text(n / 1000, 0, sep) + sep
                               + [Digit(n / 100 % 10), Digit(n / 10 % 10), Digit(n % 10)]
  {
    TextPeriod(n / 1000, 0, sep);
    assert n / 10 / 10 == n / 100 && n / 100 / 10 == n / 1000;
    assert Text(n / 100, 2, sep) == Text(n / 1000, 3, sep) + sep + [Digit(n / 100 % 10)];
    assert Text(n / 10, 1, sep) == Text(n / 100, 2, sep) + [Digit(n / 10 % 10)];
    assert Text(n, 0, sep) == Text(n / 10, 1, sep) + [Digit(n % 10)];
  }

  lemma DecimalThreeSteps(n: nat)
    requires n >= 1000
    ensures Decimal(n) == Decimal(n / 1000) + [Digit(n / 100 % 10), Digit(n / 10 % 10), Digit(n % 10)]
  {
    assert n / 10 / 10 == n / 100 && n / 100 / 10 == n / 1000;
    assert Decimal(n / 100) == Decimal(n / 1000) + [Digit(n / 100 % 10)];
    assert Decimal(n / 10) == Decimal(n / 100) + [Digit(n / 10 % 10)];
  }

  lemma {:induction false} TextIsGrouped(n: nat, sep: string)
    ensures Text(n, 0, sep) == Grouped(Decimal(n), sep)
  {
    FewDigits(n);
    if n < 10 {
    } else if n < 100 {
      assert Text(n / 10, 1, sep) == [Digit(n / 10)] == Decimal(n / 10);
    } else if n < 1000 {
      assert n / 10 / 10 == n / 100;
      assert Text(n / 10, 1, sep) == [Digit(n / 100), Digit(n / 10 % 10)] == Decimal(n / 10);
      assert Text(n, 0, sep) == Text(n / 10, 1, sep) + [Digit(n % 10)];
    } else {
      TextIsGrouped(n / 1000, sep);
      TextThreeSteps(n, sep);
      DecimalThreeSteps(n);
      var d := Decimal(n);
      assert d[..|d| - 3] == Decimal(n / 1000);
    }
  }

  // ---- The two-digit table ----

  const DIGITS: seq<string> := [
    "00010203040506070809",
    "10111213141516171819",
    "20212223242526272829",
    "30313233343536373839",
    "40414243444546474849",
    "50515253545556575859",
    "60616263646566676869",
    "70717273747576777879",
    "80818283848586878889",
    "90919293949596979899"]

  /** Character i of the table, which is one literal in the source. */
  function TableDigit(i: nat): char
    requires i < 200
  {
    DIGITS[i / 20][i % 20]
  }

  lemma RowPairs(tens: nat, units: nat)
    requires tens < 10 && units < 10
    ensures DIGITS[tens][2 * units] == Digit(tens) && DIGITS[tens][2 * units + 1] == Digit(units)
  {
    assert units in {0, 1, 2, 3, 4, 5, 6, 7, 8, 9};
  }

  /** Entry k of the table is the number k in two digits. */
  lemma DigitPairs(k: nat)
    requires k < 100
    ensures TableDigit(2 * k) == Digit(k / 10) && TableDigit(2 * k + 1) == Digit(k % 10)
  {
    hide DIGITS;
    RowPairs(k / 10, k % 10);
  }

  // ---- Writing backwards into a buffer ----

  /** The functor called after each digit; digitIndex counts the digits
      written. NoThousandsSep behaves as the empty separator. */
  class ThousandsSep {
    const sep: string
    var digitIndex: nat

    constructor (sep: string)
      ensures this.sep == sep && digitIndex == 0
    {
      this.sep := sep;
      digitIndex := 0;
    }

    method Apply(buffer: array<char>, p: nat) returns (q: nat)
      requires |Mark(digitIndex + 1, sep)| <= p <= buffer.Length
      modifies this`digitIndex, buffer
      ensures digitIndex == old(digitIndex) + 1
      ensures q == p - |Mark(digitIndex, sep)|
      ensures buffer[..] == old(buffer[..q]) + Mark(digitIndex, sep) + old(buffer[p..])
    {
      digitIndex := digitIndex + 1;
      if digitIndex % 3 != 0 {
        return p;
      }
      q := p - |sep|;
      forall k | 0 <= k < |sep| {
        buffer[q + k] := sep[k];
      }
    }
  }

  /** The written part of the buffer, and what is still to come, make up the
      text of the whole value; the rest of the buffer is as it was. */
  ghost predicate WrittenBack(now: seq<char>, was: seq<char>, p: nat, end: nat, rest: string, all: string)
  {
    && |rest| <= p <= end <= |was| == |now|
    && now[..p] == was[..p] && now[end..] == was[end..]
    && all == rest + now[p..end]
  }

  lemma WriteBackStep(now: seq<char>, next: seq<char>, was: seq<char>, p: nat, q: nat, end: nat,
                      rest: string, shorter: string, piece: string, all: string)
    requires WrittenBack(now, was, p, end, rest, all)
    requires rest == shorter + piece && q == p - |piece|
    requires next == now[..q] + piece + now[p..]
    ensures WrittenBack(next, was, q, end, shorter, all)
  {
    assert next[q..end] == piece + now[p..end];
    assert next[..q] == was[..p][..q] == was[..q];
  }

  /** One `*--buffer = c; thousands_sep(buffer);` of the source, when more
      digits follow: the lowest digit of n goes in, n / 10 is left. */
  method PutDigit(buffer: array<char>, p: nat, c: char, mark: ThousandsSep,
                  ghost n: nat, ghost was: seq<char>, ghost end: nat, ghost all: string) returns (q: nat)
    requires n >= 10 && c == Digit(n % 10)
    requires WrittenBack(buffer[..], was, p, end, Text(n, mark.digitIndex, mark.sep), all)
    modifies mark`digitIndex, buffer
    ensures WrittenBack(buffer[..], was, q, end, Text(n / 10, mark.digitIndex, mark.sep), all)
  {
    ghost var now, shorter := buffer[..], Text(n / 10, mark.digitIndex + 1, mark.sep);
    ghost var piece := Mark(mark.digitIndex + 1, mark.sep) + [c];
    assert Text(n, mark.digitIndex, mark.sep) == shorter + piece;
    assert |piece| <= p <= |now|;
    hide WrittenBack, Text, Mark;
    buffer[p - 1] := c;
    ghost var between := buffer[..];
    assert between == now[..p - 1] + [c] + now[p..];
    q := mark.Apply(buffer, p - 1);
    assert between[..q] == now[..q] && between[p - 1..] == [c] + now[p..];
    AssembleStep(now[..q], piece[..|piece| - 1], c, now[p..]);
    assert buffer[..] == now[..q] + piece + now[p..];
    WriteBackStep(now, buffer[..], was, p, q, end, shorter + piece, shorter, piece, all);
  }

  lemma AssembleStep(left: string, mark: string, c: char, right: string)
    ensures left + mark + ([c] + right) == left + (mark + [c]) + right
  {
  }

  /** `*--buffer = c;` for the highest digit, which no mark follows. */
  method PutLastDigit(buffer: array<char>, p: nat, c: char, ghost was: seq<char>, ghost end: nat, ghost all: string)
    requires WrittenBack(buffer[..], was, p, end, [c], all)
    modifies buffer
    ensures |all| <= end <= |was| && buffer[..] == was[..end - |all|] + all + was[end..]
  {
    ghost var now := buffer[..];
    buffer[p - 1] := c;
    assert buffer[..] == now[..p - 1] + [c] + now[p..];
    WriteBackStep(now, buffer[..], was, p, p - 1, end, [c], "", [c], all);
  }

  /** The body of the loop, less the division of the value. */
  method PutTwoDigits(buffer: array<char>, p: nat, n: nat, mark: ThousandsSep,
                      ghost was: seq<char>, ghost end: nat, ghost all: string) returns (q: nat)
    requires n >= 100
    requires WrittenBack(buffer[..], was, p, end, Text(n, mark.digitIndex, mark.sep), all)
    modifies mark`digitIndex, buffer
    ensures WrittenBack(buffer[..], was, q, end, Text(n / 100, mark.digitIndex, mark.sep), all)
  {
    hide WrittenBack, Text, TableDigit, Mark, Digit;
    var index := n % 100 * 2;
    TwoDigits(n);
    q := PutDigit(buffer, p, TableDigit(index + 1), mark, n, was, end, all);
    q := PutDigit(buffer, q, TableDigit(index), mark, n / 10, was, end, all);
  }

  /** What is left once fewer than three digits remain. */
  method PutHighestDigits(buffer: array<char>, p: nat, n: nat, mark: ThousandsSep,
                          ghost was: seq<char>, ghost end: nat, ghost all: string)
    requires n < 100
    requires WrittenBack(buffer[..], was, p, end, Text(n, mark.digitIndex, mark.sep), all)
    modifies mark`digitIndex, buffer
    ensures |all| <= end <= |was| && buffer[..] == was[..end - |all|] + all + was[end..]
  {
    hide WrittenBack, Text, TableDigit, Mark;
    if n < 10 {
      TextOfDigit(n, mark.digitIndex, mark.sep);
      PutLastDigit(buffer, p, '0' + n as char, was, end, all);
    } else {
      var index := n * 2;
      DigitPairs(n);
      var q := PutDigit(buffer, p, TableDigit(index + 1), mark, n, was, end, all);
      TextOfDigit(n / 10, mark.digitIndex, mark.sep);
      PutLastDigit(buffer, q, TableDigit(index), was, end, all);
    }
  }

  /** Fills the space that ends at base + numDigits, from the right. */
  method FormatDecimal(buffer: array<char>, base: nat, value: nat, numDigits: nat, sep: string)
    requires |Grouped(Decimal(value), sep)| <= base + numDigits <= buffer.Length
    modifies buffer
    ensures
      var end, text := base + numDigits, Grouped(Decimal(value), sep);
      buffer[..] == old(buffer[..end - |text|]) + text + old(buffer[end..])
  {
    var end := base + numDigits;
    var p: nat, n: nat := end, value;
    var mark := new ThousandsSep(sep);
    TextIsGrouped(value, sep);
    ghost var all, was := Text(value, 0, sep), buffer[..];
    assert WrittenBack(was, was, p, end, all, all);
    hide WrittenBack, Text, Grouped, Decimal, Mark;
    while n >= 100
      invariant mark.sep == sep && fresh(mark)
      invariant WrittenBack(buffer[..], was, p, end, Text(n, mark.digitIndex, sep), all)
      decreases n
    {
      p := PutTwoDigits(buffer, p, n, mark, was, end, all);
      n := n / 100;
    }
    PutHighestDigits(buffer, p, n, mark, was, end, all);
  }

  lemma LowDigits(n: nat)
    ensures n % 100 % 10 == n % 10 && n % 100 / 10 == n / 10 % 10 && n / 10 / 10 == n / 100
  {
  }

  lemma TwoDigits(n: nat)
    requires n >= 100
    ensures TableDigit(n % 100 * 2 + 1) == Digit(n % 10) && TableDigit(n % 100 * 2) == Digit(n / 10 % 10)
    ensures n / 10 / 10 == n / 100 && n / 10 >= 10
  {
    hide TableDigit, Digit;
    LowDigits(n);
    DigitPairs(n % 100);
  }

  lemma TextOfDigit(n: nat, i: nat, sep: string)
    requires n < 10
    ensures Text(n, i, sep) == [Digit(n)]
  {
  }
}
