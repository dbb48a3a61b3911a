/** Decimal text for C# `int` values, as the inventory uses it: a slot's count
    is written with `int.ToString()` and read back with `int.TryParse`
    (invariant culture, `NumberStyles.Integer`). */
module Decimal {
  import opened Wrappers

  const Int32Min: int := -0x8000_0000
  const Int32Max: int := 0x7FFF_FFFF

  /** A C# `int`. */
  type Int32 = x: int | -0x8000_0000 <= x <= 0x7FFF_FFFF

  /** The value a C# `int` expression yields: two's-complement wrap-around. */
  function Wrap32(x: int): (r: Int32)
    ensures Int32Min <= x <= Int32Max ==> r == x
  {
    ((x - Int32Min) % 0x1_0000_0000) + Int32Min
  }

  predicate IsDigit(c: char) {
    '0' <= c <= '9'
  }

  predicate AllDigits(s: string) {
    forall i :: 0 <= i < |s| ==> IsDigit(s[i])
  }

  /** The white space `NumberStyles.Integer` lets surround a number:
      U+0009 to U+000D and U+0020. */
  predicate IsWhite(c: char) {
    c == ' ' || '\t' <= c <= '\r'
  }

  function DigitChar(d: nat): (c: char)
    requires d < 10
    ensures IsDigit(c)
  {
    (('0' as int) + d) as char
  }

  function DigitValue(c: char): nat
    requires IsDigit(c)
  {
    (c as int) - ('0' as int)
  }

  /** The digits of `n`, most significant first, without leading zeros. */
  function Digits(n: nat): (s: string)
    ensures |s| > 0 && AllDigits(s)
    decreases n
  {
    if n < 10 then [DigitChar(n)] else Digits(n / 10) + [DigitChar(n % 10)]
  }

  /** The number a digit string denotes. */
  function ValueOf(s: string): nat
    requires AllDigits(s)
    decreases |s|
  {
    if s == [] then 0 else ValueOf(s[..|s| - 1]) * 10 + DigitValue(s[|s| - 1])
  }

  /** `int.ToString()`: an optional minus sign followed by the digits. */
  function Render(n: int): (s: string)
    ensures |s| > 0 && IsDigit(s[|s| - 1])
    ensures !IsWhite(s[0])
  {
    if n < 0 then "-" + Digits(-n) else Digits(n)
  }

  function TrimStart(s: string): (t: string)
    ensures |t| <= |s|
    decreases |s|
  {
    if |s| > 0 && IsWhite(s[0]) then TrimStart(s[1..]) else s
  }

  function TrimEnd(s: string): (t: string)
    ensures |t| <= |s|
    decreases |s|
  {
    if |s| > 0 && IsWhite(s[|s| - 1]) then TrimEnd(s[..|s| - 1]) else s
  }

  /** `int.TryParse`: surrounding white space, one optional sign, at least
      one digit, and a value that fits in an `int`; anything else fails. */
  function TryParse(s: string): Option<Int32> {
    var t := TrimEnd(TrimStart(s));
    var signed := |t| > 0 && (t[0] == '-' || t[0] == '+');
    var body := if signed then t[1..] else t;
    if |body| == 0 || !AllDigits(body) then None
    else
      var v: int := if signed && t[0] == '-' then -(ValueOf(body) as int) else ValueOf(body);
      if Int32Min <= v <= Int32Max then Some(v) else None
  }

  lemma {:induction false} ValueOfDigits(n: nat)
    ensures ValueOf(Digits(n)) == n
    decreases n
  {
    if n < 10 {
      assert Digits(n)[..0] == [];
    } else {
      var s := Digits(n);
      assert s[..|s| - 1] == Digits(n / 10);
      ValueOfDigits(n / 10);
    }
  }

  /** Reading back what `int.ToString()` wrote gives the same number. */
  lemma ParseRender(n: Int32)
    ensures TryParse(Render(n)) == Some(n)
  {
    var s := Render(n);
    assert TrimStart(s) == s;
    assert TrimEnd(s) == s;
    if n < 0 {
      assert s[1..] == Digits(-(n as int));
      ValueOfDigits(-(n as int));
    } else {
      ValueOfDigits(n);
    }
  }

  /** The empty text, which a cleared label holds, never parses. */
  lemma EmptyDoesNotParse()
    ensures TryParse("") == None
  {
  }
}
