/** The string operations the services rely on: substring tests and decimal rendering. */
module Text {

  /** Python's `needle in hay` and .NET's ordinal `hay.Contains(needle)`. */
  predicate Contains(hay: string, needle: string)
    decreases |hay|
  {
    needle <= hay || (hay != [] && Contains(hay[1..], needle))
  }

  lemma ContainsNot(hay: string, needle: string)
    requires needle != "" && needle[0] !in hay
    ensures !Contains(hay, needle)
  {
  }

  lemma {:induction false} ContainsBetween(before: string, needle: string, after: string)
    ensures Contains(before + needle + after, needle)
    decreases |before|
  {
    var hay := before + needle + after;
    if before == "" {
      assert needle <= hay;
    } else {
      assert hay[1..] == before[1..] + needle + after;
      ContainsBetween(before[1..], needle, after);
    }
  }

  function Digit(d: nat): char
    requires d < 10
  {
    '0' + d as char
  }

  function DigitValue(c: char): int { c as int - '0' as int }

  predicate IsDigit(c: char) { '0' <= c <= '9' }

  /** A natural number as exactly `width` decimal digits, high digits cut off. */
  function Digits(n: nat, width: nat): (s: string)
    ensures |s| == width
    ensures forall i :: 0 <= i < width ==> IsDigit(s[i])
    decreases width
  {
    if width == 0 then "" else Digits(n / 10, width - 1) + [Digit(n % 10)]
  }

  function Value(s: string): int
  {
    if s == [] then 0 else 10 * Value(s[..|s| - 1]) + DigitValue(s[|s| - 1])
  }

  function Pow10(w: nat): nat { if w == 0 then 1 else 10 * Pow10(w - 1) }

  /** Reading back the digits gives the number, as long as it fits the width. */
  lemma {:induction false} ValueOfDigits(n: nat, width: nat)
    requires n < Pow10(width)
    ensures Value(Digits(n, width)) == n
    decreases width
  {
    if width > 0 {
      ValueOfDigits(n / 10, width - 1);
      var s := Digits(n, width);
      assert s[..|s| - 1] == Digits(n / 10, width - 1);
    }
  }

  /** Decimal text without leading zeros. */
  function Decimal(n: nat): (s: string)
    ensures s != "" && forall i :: 0 <= i < |s| ==> IsDigit(s[i])
  {
    if n < 10 then [Digit(n)] else Decimal(n / 10) + [Digit(n % 10)]
  }

  /** Python's `str(n)`. */
  function Integer(n: int): string { if n < 0 then "-" + Decimal(-n) else Decimal(n) }

  lemma {:induction false} ValueOfDecimal(n: nat)
    ensures Value(Decimal(n)) == n
  {
    var s := Decimal(n);
    if n < 10 {
      assert s[..|s| - 1] == [];
    } else {
      ValueOfDecimal(n / 10);
      assert s[..|s| - 1] == Decimal(n / 10);
    }
  }

  /** Python's `f"{n:0{width}d}"` for natural n: padded to the width, longer when it does not fit. */
  function Padded(n: nat, width: nat): (s: string)
    ensures s != "" || width == 0
    ensures forall i :: 0 <= i < |s| ==> IsDigit(s[i])
  {
    if n < Pow10(width) then Digits(n, width) else Decimal(n)
  }

  lemma PaddedInjective(m: nat, n: nat, width: nat)
    requires Padded(m, width) == Padded(n, width)
    ensures m == n
  {
    if m < Pow10(width) { ValueOfDigits(m, width); } else { ValueOfDecimal(m); }
    if n < Pow10(width) { ValueOfDigits(n, width); } else { ValueOfDecimal(n); }
  }

  /** A digit run ended by a dash can be read off the front of a string in one way only. */
  lemma DigitRunUnique(a: string, b: string, s: string, t: string)
    requires forall i :: 0 <= i < |a| ==> IsDigit(a[i])
    requires forall i :: 0 <= i < |b| ==> IsDigit(b[i])
    requires a + "-" + s == b + "-" + t
    ensures a == b && s == t
  {
    var x, y := a + "-" + s, b + "-" + t;
    assert x[|a|] == '-' && y[|b|] == '-';
    assert forall i :: 0 <= i < |a| ==> IsDigit(x[i]);
    assert forall i :: 0 <= i < |b| ==> IsDigit(y[i]);
    assert |a| == |b|;
    assert a == x[..|a|] && b == y[..|b|];
    assert s == x[|a| + 1..] && t == y[|b| + 1..];
  }
}
