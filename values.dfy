/** The host (.NET) types the command layer deals in, the values its
    parameters hold, and the text a value renders as when it is logged. */
module Values {

  /** The ranges of C#'s `int` and `long`. */
  type ClrInt32 = x: int | -0x8000_0000 <= x < 0x8000_0000
  type ClrInt64 = x: int | -0x8000_0000_0000_0000 <= x < 0x8000_0000_0000_0000

  /** A `System.Type`, as passed to `AddParamOut`, `AddParamReturn` and
      `CreateFunctionCommand`: the seven primitive types the layer knows
      of, and any other type by its full name. */
  datatype ClrType =
    | IntType
    | StringType
    | DecimalType
    | DoubleType
    | CharType
    | LongType
    | DateTimeType
    | OtherType(fullName: string)

  /** `Type.ToString()`: the type's full name. */
  function TypeName(t: ClrType): string {
    match t
    case IntType => "System.Int32"
    case StringType => "System.String"
    case DecimalType => "System.Decimal"
    case DoubleType => "System.Double"
    case CharType => "System.Char"
    case LongType => "System.Int64"
    case DateTimeType => "System.DateTime"
    case OtherType(name) => name
  }

  /** One UTF-16 code unit: what a C# `char` is and what `String.Length`
      and `Substring` count. */
  type CodeUnit = x: int | 0 <= x < 0x1_0000

  /** A .NET string: a sequence of UTF-16 code units, which need not be
      well-formed UTF-16 (a lone surrogate is a valid `string`). */
  type Text = seq<CodeUnit>

  /** The UTF-16 encoding of one Unicode scalar value: one code unit inside
      the Basic Multilingual Plane, a surrogate pair outside it. */
  function EncodeChar(c: char): (r: Text)
    ensures |r| == if c as int < 0x1_0000 then 1 else 2
    ensures c as int < 0x1_0000 ==> r[0] == c as int
    ensures c as int >= 0x1_0000 ==> 0xD800 <= r[0] < 0xDC00 <= r[1] < 0xE000
  {
    if c as int < 0x1_0000 then [c as int]
    else
      var v := c as int - 0x1_0000;
      [0xD800 + v / 0x400, 0xDC00 + v % 0x400]
  }

  /** A Dafny string (Unicode scalar values) as the .NET string holding the
      same characters. */
  function Utf16(s: string): (r: Text)
    ensures |r| >= |s|
  {
    if s == [] then [] else EncodeChar(s[0]) + Utf16(s[1..])
  }

  /** Encoding distributes over concatenation. */
  lemma {:induction false} Utf16Append(s: string, t: string)
    ensures Utf16(s + t) == Utf16(s) + Utf16(t)
  {
    if s == [] {
      assert s + t == t;
    } else {
      assert (s + t)[0] == s[0] && (s + t)[1..] == s[1..] + t;
      Utf16Append(s[1..], t);
    }
  }

  predicate InBmp(s: string) {
    forall i :: 0 <= i < |s| ==> s[i] as int < 0x1_0000
  }

  /** Text inside the Basic Multilingual Plane has one code unit per
      character, so its prefixes in code units are its prefixes in
      characters. */
  lemma {:induction false} Utf16Bmp(s: string, n: nat)
    requires InBmp(s) && n <= |s|
    ensures |Utf16(s)| == |s|
    ensures Utf16(s)[..n] == Utf16(s[..n])
  {
    if s != [] {
      Utf16Bmp(s[1..], if n == 0 then 0 else n - 1);
      if n > 0 {
        assert s[..n] == [s[0]] + s[1..][..n - 1];
        Utf16Append([s[0]], s[1..][..n - 1]);
        assert Utf16([s[0]]) == EncodeChar(s[0]);
      } else {
        assert s[..n] == [];
      }
    }
  }

  /** The object a parameter holds. `Null` is the null reference. A value
      whose `ToString()` depends on the culture or on floating-point
      formatting (double, decimal, DateTime, or whatever the driver hands
      back) is opaque: it is known only by its type and the text it
      renders as. */
  datatype Value =
    | Null
    | StringValue(s: Text)
    | IntValue(i: ClrInt32)
    | CharValue(c: CodeUnit)
    | LongValue(l: ClrInt64)
    | Formatted(kind: ClrType, shown: Text)

  // ---------------------------------------------------------------------
  // Rendering of integers, as `int.ToString()` and `long.ToString()` do
  // under an invariant number format, with a parser that undoes it.
  // ---------------------------------------------------------------------

  predicate IsDigit(c: char) {
    '0' <= c <= '9'
  }

  predicate AllDigits(s: string) {
    forall i :: 0 <= i < |s| ==> IsDigit(s[i])
  }

  function DigitChar(d: nat): (c: char)
    requires d < 10
    ensures IsDigit(c) && c as int - '0' as int == d
  {
    ('0' as int + d) as char
  }

  /** The decimal digits of `n`, most significant first, without leading zeros. */
  function NatToText(n: nat): (r: string)
    ensures |r| >= 1 && AllDigits(r)
    ensures |r| > 1 ==> r[0] != '0'
    decreases n
  {
    if n < 10 then [DigitChar(n)] else NatToText(n / 10) + [DigitChar(n % 10)]
  }

  /** The number a string of decimal digits denotes. */
  function TextToNat(s: string): nat
    requires AllDigits(s)
  {
    if s == [] then 0 else TextToNat(s[..|s| - 1]) * 10 + (s[|s| - 1] as int - '0' as int)
  }

  /** The strings `IntToText` produces: an optional minus sign, then digits. */
  predicate IsIntText(s: string) {
    (|s| >= 1 && AllDigits(s)) || (|s| >= 2 && s[0] == '-' && AllDigits(s[1..]))
  }

  /** `int.Parse` restricted to the strings `IntToText` can produce. */
  function ParseInt(s: string): int
    requires IsIntText(s)
  {
    if s[0] == '-' then 0 - TextToNat(s[1..]) else TextToNat(s)
  }

  lemma {:induction false} NatTextRoundTrip(n: nat)
    ensures TextToNat(NatToText(n)) == n
    decreases n
  {
    if n >= 10 {
      var prefix := NatToText(n / 10);
      NatTextRoundTrip(n / 10);
      var s := prefix + [DigitChar(n % 10)];
      assert s[..|s| - 1] == prefix;
    }
  }

  /** `ToString()` of an `int` or a `long`. Rendering loses nothing:
      parsing the text gives the integer back. */
  function IntToText(i: int): (r: string)
    ensures IsIntText(r) && ParseInt(r) == i
  {
    if i < 0 then
      NatTextRoundTrip(-i);
      assert ("-" + NatToText(-i))[1..] == NatToText(-i);
      "-" + NatToText(-i)
    else
      NatTextRoundTrip(i);
      NatToText(i)
  }

  /** `value.ToString()` as a .NET string, or the empty string that
      `string.Format` writes for a null argument. A string renders as
      itself, a `char` as its one code unit, an integer as text that parses
      back to it. */
  function ToText(v: Value): (r: Text)
    ensures v.Null? ==> r == []
    ensures v.StringValue? ==> r == v.s
    ensures v.CharValue? ==> r == [v.c]
    ensures v.IntValue? ==> exists t :: IsIntText(t) && ParseInt(t) == v.i && r == Utf16(t)
    ensures v.LongValue? ==> exists t :: IsIntText(t) && ParseInt(t) == v.l && r == Utf16(t)
  {
    match v
    case Null => []
    case StringValue(s) => s
    case IntValue(i) => Utf16(IntToText(i))
    case CharValue(c) => [c]
    case LongValue(l) => Utf16(IntToText(l))
    case Formatted(_, shown) => shown
  }
}
