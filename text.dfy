/** String helpers used by both halves of the system: decimal rendering of
    integers (C# `ToString(InvariantCulture)` and Kotlin string templates),
    Kotlin's `String.toInt()`, `substringAfter`, `startsWith`/`removePrefix`
    and `equals(ignoreCase = true)`. */
module Text {
  import opened Common

  /** Bounds of a 32-bit signed integer (Kotlin `Int`, C# `int`). */
  const IntMin: int := -0x8000_0000
  const IntMax: int := 0x7FFF_FFFF

  predicate IsDigit(c: char) { '0' <= c <= '9' }

  predicate AllDigits(s: string) { forall i :: 0 <= i < |s| ==> IsDigit(s[i]) }

  function DigitChar(d: nat): (c: char)
    requires d < 10
    ensures IsDigit(c)
  {
    ('0' as int + d) as char
  }

  function DigitValue(c: char): (d: nat)
    requires IsDigit(c)
    ensures d < 10
  {
    c as int - '0' as int
  }

  /** Decimal text of a natural number, most significant digit first, no leading zeros. */
  function NatToDecimal(n: nat): (s: string)
    ensures 1 <= |s| && AllDigits(s)
    ensures |s| > 1 ==> s[0] != '0'
    decreases n
  {
    if n < 10 then [DigitChar(n)] else NatToDecimal(n / 10) + [DigitChar(n % 10)]
  }

  /** Invariant-culture decimal text of an integer: a leading '-' for negative values. */
  function IntToDecimal(i: int): (s: string)
    ensures 1 <= |s|
    ensures i < 0 <==> s[0] == '-'
    ensures i >= 0 ==> AllDigits(s)
  {
    if i < 0 then "-" + NatToDecimal(-i) else NatToDecimal(i)
  }

  /** Value of a string of decimal digits (the empty string has value 0). */
  function DigitsValue(s: string): nat
    requires AllDigits(s)
  {
    if s == [] then 0 else DigitsValue(s[..|s| - 1]) * 10 + DigitValue(s[|s| - 1])
  }

  lemma {:induction false} DigitsValueOfNatToDecimal(n: nat)
    ensures DigitsValue(NatToDecimal(n)) == n
    decreases n
  {
    if n >= 10 {
      var s := NatToDecimal(n);
      assert s[..|s| - 1] == NatToDecimal(n / 10);
      DigitsValueOfNatToDecimal(n / 10);
    }
  }

  /** Bounds of a 64-bit signed integer (C# `long`). */
  const LongMin: int := -0x8000_0000_0000_0000
  const LongMax: int := 0x7FFF_FFFF_FFFF_FFFF

  /** A decimal reader for an integer type with range `lo..hi`: an optional
      '+' or '-', then one or more ASCII decimal digits, and a value in the
      range; anything else is rejected with `None`. */
  function ParseIntIn(s: string, lo: int, hi: int): (r: Option<int>)
    ensures r.Some? ==> lo <= r.value <= hi
    ensures r.Some? ==> 1 <= |s|
  {
    if |s| == 0 then None
    else if s[0] == '-' || s[0] == '+' then
      if |s| == 1 || !AllDigits(s[1..]) then None
      else
        var v: int := if s[0] == '-' then 0 - DigitsValue(s[1..]) else DigitsValue(s[1..]);
        if lo <= v <= hi then Some(v) else None
    else if !AllDigits(s) then None
    else
      var v := DigitsValue(s);
      if lo <= v <= hi then Some(v) else None
  }

  /** Kotlin `String.toInt()` over ASCII digits: the reader for `Int`;
      anything it rejects throws `NumberFormatException`. */
  function ParseInt(s: string): (r: Option<int>)
    ensures r.Some? ==> IntMin <= r.value <= IntMax
    ensures r.Some? ==> 1 <= |s|
  {
    ParseIntIn(s, IntMin, IntMax)
  }

  /** The invariant-culture reader of a C# `long` over ASCII digits. */
  function ParseLong(s: string): (r: Option<int>)
    ensures r.Some? ==> LongMin <= r.value <= LongMax
    ensures r.Some? ==> 1 <= |s|
  {
    ParseIntIn(s, LongMin, LongMax)
  }

  /** Printing an integer in range and reading the text back gives the same
      integer, for a reader of any range. */
  lemma ParseIntInOfIntToDecimal(i: int, lo: int, hi: int)
    requires lo <= i <= hi
    ensures ParseIntIn(IntToDecimal(i), lo, hi) == Some(i)
  {
    if i < 0 {
      var t := NatToDecimal(-i);
      var s := IntToDecimal(i);
      assert s == "-" + t;
      assert s[0] == '-' && |s| > 1;
      assert s[1..] == t;
      DigitsValueOfNatToDecimal(-i);
      assert DigitsValue(s[1..]) == -i;
    } else {
      var s := NatToDecimal(i);
      assert IntToDecimal(i) == s;
      assert IsDigit(s[0]);
      DigitsValueOfNatToDecimal(i);
    }
  }

  /** Printing an `Int` and parsing the text back gives the same `Int`. */
  lemma ParseIntOfIntToDecimal(i: int)
    requires IntMin <= i <= IntMax
    ensures ParseInt(IntToDecimal(i)) == Some(i)
  {
    ParseIntInOfIntToDecimal(i, IntMin, IntMax);
  }

  /** Kotlin `substringAfter(delimiter)`: the text after the first delimiter,
      or the whole string when the delimiter does not occur. */
  function SubstringAfter(s: string, c: char): string
  {
    match IndexOf(s, c)
    case None => s
    case Some(k) => s[k + 1..]
  }

  /** The text after the first delimiter of `prefix + [c] + rest`, when the
      prefix does not contain the delimiter, is `rest`. */
  lemma SubstringAfterFirst(prefix: string, c: char, rest: string)
    requires forall j :: 0 <= j < |prefix| ==> prefix[j] != c
    ensures SubstringAfter(prefix + [c] + rest, c) == rest
  {
    var s := prefix + [c] + rest;
    assert s[|prefix|] == c;
    assert IndexOf(s, c) == Some(|prefix|);
  }

  /** ASCII case folding; letters outside A-Z are left alone. */
  function ToLowerAscii(c: char): char
  {
    if 'A' <= c <= 'Z' then (c as int + 32) as char else c
  }

  /** Kotlin `equals(other, ignoreCase = true)` restricted to ASCII case folding. */
  predicate EqualsIgnoreCase(a: string, b: string)
  {
    |a| == |b| && forall i :: 0 <= i < |a| ==> ToLowerAscii(a[i]) == ToLowerAscii(b[i])
  }
}
