// The writer members of format.h that print integers: they count the digits,
// reserve exactly that space and fill it from the right.
module DecimalWriter {
  import opened DecimalDigits
  import opened DecimalFormat
  import opened RingArithmetic

  /** Values of the signed and unsigned integer types of that width. */
  predicate Fits(value: int, width: nat)
  {
    (width == 32 || width == 64) && 0 <= value + Pow2(width - 1) && value < Pow2(width)
  }

  function Abs(value: int): nat { if value < 0 then -value else value }

  /** static_cast to the unsigned type of that width. */
  function Wrap(value: int, width: nat): nat { value % Pow2(width) }

  /** `abs_value`: the cast, negated in unsigned arithmetic when value < 0. */
  function UnsignedAbs(value: int, width: nat): nat
  {
    if value < 0 then Wrap(0 - Wrap(value, width), width) else Wrap(value, width)
  }

  /** Negating after the cast is right even for the most negative value. */
  lemma UnsignedAbsIsAbs(value: int, width: nat)
    requires Fits(value, width)
    ensures UnsignedAbs(value, width) == Abs(value) < Pow2(width)
  {
    var word := Pow2(width);
    assert Pow2(width) == 2 * Pow2(width - 1);
    if value < 0 {
      ModUnique(value, word, -1, value + word);
      ModUnique(-(value + word), word, -1, -value);
    } else {
      ModUnique(value, word, 0, value);
    }
  }

  function PowersOf(width: nat): seq<nat>
  {
    if width == 32 then POWERS_OF_10_32 else POWERS_OF_10_64
  }

  function CountWordDigits(value: nat, width: nat): (k: nat)
    requires width == 32 || width == 64
    requires value < Pow2(width)
    ensures k == NumDigits(value)
  {
    CountDigitsIsNumDigits(value, width, PowersOf(width));
    CountDigits(value, PowersOf(width))
  }

  /** Characters reserved for a number of that many digits. */
  function SpaceFor(numDigits: nat, sepLength: nat): nat
    requires numDigits >= 1
  {
    numDigits + sepLength * ((numDigits - 1) / 3)
  }

  lemma SpaceIsExact(value: nat, sep: string)
    ensures SpaceFor(NumDigits(value), |sep|) == |Grouped(Decimal(value), sep)|
  {
    GroupedLength(Decimal(value), sep);
  }

  /** The sign written in front of a number. */
  function Prefix(value: int, signFlag: bool, plusFlag: bool): string
  {
    if value < 0 then "-"
    else if signFlag then (if plusFlag then "+" else " ")
    else ""
  }

  lemma ReservedFilled(before: string, after: string, start: nat, p: nat, size: nat, text: string)
    requires start <= p <= size <= |before| && |text| == size - p
    requires after == before[..p] + text + before[size..]
    ensures |after| == |before| && after[..start] == before[..start] && after[p..size] == text
  {
  }

  lemma SignInFront(text: string, start: nat, size: nat)
    requires start < size <= |text|
    ensures text[start := '-'][..size] == text[..start] + "-" + text[start + 1..size]
  {
  }

  lemma NothingInFront(text: string, start: nat, size: nat)
    requires start <= size <= |text|
    ensures text[..size] == text[..start] + "" + text[start..size]
  {
  }

  const INLINE_BUFFER_SIZE := 500

  class MemoryWriter {
    var data: array<char>
    var size: nat

    ghost predicate Valid()
      reads this
    {
      size <= data.Length
    }

    ghost function Contents(): string
      requires Valid()
      reads this, data
    {
      data[..size]
    }

    constructor ()
      ensures Valid() && fresh(data) && Contents() == ""
    {
      data := new char[INLINE_BUFFER_SIZE];
      size := 0;
    }

    /** Makes room for n more characters after the present contents. */
    method GrowBuffer(n: nat) returns (start: nat)
      requires Valid()
      modifies this
      ensures Valid() && (data == old(data) || fresh(data))
      ensures start == old(size) && size == start + n
      ensures data[..start] == old(Contents())
    {
      start := size;
      if start + n > data.Length {
        var capacity := data.Length + data.Length / 2;
        if capacity < start + n {
          capacity := start + n;
        }
        var bigger := new char[capacity];
        forall k | 0 <= k < size {
          bigger[k] := data[k];
        }
        assert bigger[..size] == data[..size];
        data := bigger;
      }
      size := start + n;
    }

    method WriteUnsignedDecimal(value: nat, width: nat, prefixSize: nat) returns (start: nat)
      requires Valid()
      requires (width == 32 || width == 64) && value < Pow2(width)
      modifies this, data
      ensures Valid() && (data == old(data) || fresh(data))
      ensures start == old(size) && size == start + prefixSize + NumDigits(value)
      ensures data[..start] == old(Contents())
      ensures data[start + prefixSize..size] == Decimal(value)
    {
      var numDigits := CountWordDigits(value, width);
      GroupedWithoutSeparator(Decimal(value));
      assert |Grouped(Decimal(value), "")| == numDigits;
      hide Grouped, Decimal, CountWordDigits, NumDigits, Pow2;
      start := GrowBuffer(prefixSize + numDigits);
      ghost var before := data[..];
      FormatDecimal(data, start + prefixSize, value, numDigits, "");
      ReservedFilled(before, data[..], start, start + prefixSize, size, Decimal(value));
    }

    /** Appends the decimal form of any value of the type, minimum included. */
    method WriteDecimal(value: int, width: nat)
      requires Valid() && Fits(value, width)
      modifies this, data
      ensures Valid() && (data == old(data) || fresh(data))
      ensures Contents() == old(Contents()) + (if value < 0 then "-" else "")
                            + Decimal(if value < 0 then -value else value)
    {
      UnsignedAbsIsAbs(value, width);
      var absValue := UnsignedAbs(value, width);
      assert Abs(value) == if value < 0 then -value else value;
      hide Pow2, Decimal, UnsignedAbs, NumDigits, Fits, Abs;
      if value < 0 {
        var start := WriteUnsignedDecimal(absValue, width, 1);
        ghost var written := data[..];
        data[start] := '-';
        assert data[..] == written[start := '-'];
        SignInFront(written, start, size);
      } else {
        var start := WriteUnsignedDecimal(absValue, width, 0);
        NothingInFront(data[..], start, size);
      }
    }

    /** prepare_int_buffer for a specification without width or precision. */
    method PrepareIntBuffer(numDigits: nat, prefix: string) returns (end: nat)
      requires Valid()
      modifies this, data
      ensures Valid() && (data == old(data) || fresh(data))
      ensures end == size == old(size) + |prefix| + numDigits
      ensures data[..old(size) + |prefix|] == old(Contents()) + prefix
    {
      var start := GrowBuffer(|prefix| + numDigits);
      forall k | 0 <= k < |prefix| {
        data[start + k] := prefix[k];
      }
      end := start + |prefix| + numDigits;
    }

    /** The end of both cases below: prepare_int_buffer, then format_decimal
        backwards from the end of what was reserved. */
    method WritePrepared(value: nat, length: nat, prefix: string, sep: string)
      requires Valid() && length == |Grouped(Decimal(value), sep)|
      modifies this, data
      ensures Valid() && (data == old(data) || fresh(data))
      ensures Contents() == old(Contents()) + prefix + Grouped(Decimal(value), sep)
    {
      hide Grouped, Decimal;
      var end := PrepareIntBuffer(length, prefix);
      ghost var before := data[..];
      FormatDecimal(data, end, value, 0, sep);
      ghost var text := Grouped(Decimal(value), sep);
      assert data[..] == before[..end - length] + text + before[end..];
      assert data[..size] == before[..end - length] + text;
    }

    /** The 'd' and 'n' cases of write_int; sep is the locale's separator. */
    method WriteInt(value: int, width: nat, signFlag: bool, plusFlag: bool, conversion: char, sep: string)
      requires Valid() && Fits(value, width) && conversion in {'d', 'n'}
      modifies this, data
      ensures Valid() && (data == old(data) || fresh(data))
      ensures Contents() == old(Contents())
                            + (if value < 0 then "-" else if !signFlag then "" else if plusFlag then "+" else " ")
                            + Grouped(Decimal(if value < 0 then -value else value),
                                      if conversion == 'n' then sep else "")
    {
      UnsignedAbsIsAbs(value, width);
      var absValue := UnsignedAbs(value, width);
      var prefix := Prefix(value, signFlag, plusFlag);
      assert prefix == if value < 0 then "-" else if !signFlag then "" else if plusFlag then "+" else " ";
      assert Abs(value) == if value < 0 then -value else value;
      var numDigits := CountWordDigits(absValue, width);
      var used := if conversion == 'n' then sep else "";
      SpaceIsExact(absValue, used);
      hide Pow2, Grouped, Decimal, Prefix, UnsignedAbs, CountWordDigits, NumDigits, SpaceFor, Abs, Fits;
      WritePrepared(absValue, SpaceFor(numDigits, |used|), prefix, used);
    }
  }
}
