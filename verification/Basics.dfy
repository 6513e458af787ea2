/** Shared vocabulary: optional values, Go's fixed-width integers, and decimal formatting. */
module Basics {

  datatype Option<+T> = None | Some(value: T)

  type byte = x: int | 0 <= x < 256
  type bytes = seq<byte>

  const MAX_INT64: int := 0x7FFF_FFFF_FFFF_FFFF
  const TWO_64: int := 0x1_0000_0000_0000_0000

  type int64 = x: int | -0x8000_0000_0000_0000 <= x <= 0x7FFF_FFFF_FFFF_FFFF

  /** Two's-complement wrap-around of a 64-bit signed result. */
  function Wrap64(x: int): (r: int64)
  {
    var m := x % TWO_64;
    if m <= MAX_INT64 then m else m - TWO_64
  }

  /** Two counters coincide after wrapping exactly when they differ by a multiple of 2^64. */
  lemma Wrap64Equal(x: int, y: int)
    ensures Wrap64(x) == Wrap64(y) <==> (x - y) % TWO_64 == 0
  {
  }

  lemma SmallWrap(x: int)
    requires -MAX_INT64 <= x <= MAX_INT64
    ensures Wrap64(x) == x
  {
  }

  /** A sum that wraps at every step is the sum wrapped once. */
  lemma Wrap64Add(a: int, b: int)
    ensures Wrap64(Wrap64(a) + b) == Wrap64(a + b)
  {
  }

  function Digit(d: int): (c: char)
    requires 0 <= d < 10
    ensures c != '-'
  {
    ('0' as int + d) as char
  }

  /** Decimal digits of a natural number, most significant first. */
  function Digits(n: nat): (s: string)
    ensures s != []
    ensures '-' !in s
  {
    if n < 10 then [Digit(n)] else Digits(n / 10) + [Digit(n % 10)]
  }

  /** strconv.Itoa and fmt's %d. */
  function Itoa(n: int): (s: string)
    ensures s != []
  {
    if n < 0 then "-" + Digits(-n) else Digits(n)
  }

  /** The number a string of decimal digits reads as. */
  function ReadDigits(s: string): (n: int) {
    if s == [] then 0 else ReadDigits(s[..|s| - 1]) * 10 + (s[|s| - 1] as int - '0' as int)
  }

  /** The number a signed decimal reads as. */
  function ReadInt(s: string): (n: int) {
    if s != [] && s[0] == '-' then -ReadDigits(s[1..]) else ReadDigits(s)
  }

  /** Digits are digits, without a leading zero, and read back as the number. */
  lemma {:induction false} DigitsReadBack(n: nat)
    ensures ReadDigits(Digits(n)) == n
    ensures forall i :: 0 <= i < |Digits(n)| ==> '0' <= Digits(n)[i] <= '9'
    ensures n > 0 ==> Digits(n)[0] != '0'
  {
    if n < 10 {
      assert Digits(n)[..0] == [];
    } else {
      DigitsReadBack(n / 10);
      assert Digits(n)[..|Digits(n)| - 1] == Digits(n / 10);
    }
  }

  /** The decimal form is the number's own: it reads back as the number, with a sign only if negative and
      no leading zero. */
  lemma ItoaReadsBack(n: int)
    ensures ReadInt(Itoa(n)) == n
    ensures n < 0 <==> Itoa(n)[0] == '-'
    ensures n != 0 ==> Itoa(n)[if n < 0 then 1 else 0] != '0'
    ensures forall i :: (if n < 0 then 1 else 0) <= i < |Itoa(n)| ==> '0' <= Itoa(n)[i] <= '9'
  {
    SignIsDash(n);
    DigitsReadBack(if n < 0 then -n else n);
    if n < 0 {
      assert Itoa(n)[1..] == Digits(-n);
    }
  }

  lemma {:induction false} DigitsInjective(a: nat, b: nat)
    requires Digits(a) == Digits(b)
    ensures a == b
    decreases a + b
  {
    var s := Digits(a);
    assert a < 10 ==> s[|s| - 1] == Digit(a % 10);
    assert b < 10 ==> s[|s| - 1] == Digit(b % 10);
    assert a >= 10 ==> |s| > 1 && s[|s| - 1] == Digit(a % 10) && s[..|s| - 1] == Digits(a / 10);
    assert b >= 10 ==> |s| > 1 && s[|s| - 1] == Digit(b % 10) && s[..|s| - 1] == Digits(b / 10);
    assert a % 10 == b % 10;
    if a >= 10 && b >= 10 {
      DigitsInjective(a / 10, b / 10);
    }
  }

  lemma SignIsDash(n: int)
    ensures Itoa(n)[0] == '-' <==> n < 0
  {
    if n >= 0 {
      assert Digits(n)[0] in Digits(n);
    }
  }

  lemma ItoaInjective(a: int, b: int)
    requires Itoa(a) == Itoa(b)
    ensures a == b
  {
    if a < 0 && b < 0 {
      assert Itoa(a)[1..] == Digits(-a) && Itoa(b)[1..] == Digits(-b);
      DigitsInjective(-a, -b);
    } else if a >= 0 && b >= 0 {
      DigitsInjective(a, b);
    } else {
      SignIsDash(a);
      SignIsDash(b);
    }
  }

  /** The value at one position of a sequence is at no other position. */
  ghost predicate Distinct<T>(s: seq<T>) {
    forall i, j :: 0 <= i < j < |s| ==> s[i] != s[j]
  }

  lemma SliceOfSlice<T>(s: seq<T>, a: nat, b: nat, c: nat, d: nat)
    requires a <= b <= |s| && c <= d <= b - a
    ensures s[a..b][c..d] == s[a + c..a + d]
  {
    var t, u := s[a..b][c..d], s[a + c..a + d];
    assert |t| == |u| && forall i :: 0 <= i < |t| ==> t[i] == s[a..b][c + i] == u[i];
  }

  /** The list with the first occurrence of x taken out. */
  function Without<T(==)>(s: seq<T>, x: T): (r: seq<T>) {
    if s == [] then [] else if s[0] == x then s[1..] else [s[0]] + Without(s[1..], x)
  }

  lemma {:induction false} WithoutSplices<T>(s: seq<T>, x: T, i: nat)
    requires i < |s| && s[i] == x && x !in s[..i]
    ensures Without(s, x) == s[..i] + s[i + 1..]
  {
    if i == 0 {
    } else {
      assert s[1..][..i - 1] == s[..i][1..];
      WithoutSplices(s[1..], x, i - 1);
    }
  }

  lemma {:induction false} WithoutAbsent<T>(s: seq<T>, x: T)
    requires x !in s
    ensures Without(s, x) == s
  {
    if s == [] {
    } else {
      WithoutAbsent(s[1..], x);
    }
  }
}
