// Decimal and hexadecimal printing, as Go's %d and %x verbs produce it, and the reading
// back of decimal digits. Every name in the ledger is built from these.
module Decimal {
  predicate IsDigit(c: char) {
    '0' <= c <= '9'
  }

  predicate AllDigits(s: string) {
    forall k :: 0 <= k < |s| ==> IsDigit(s[k])
  }

  function DigitChar(d: nat): (c: char)
    requires d < 10
    ensures IsDigit(c) && DigitValue(c) == d
  {
    ['0', '1', '2', '3', '4', '5', '6', '7', '8', '9'][d]
  }

  function DigitValue(c: char): (d: nat)
    requires IsDigit(c)
    ensures d < 10
  {
    c as int - '0' as int
  }

  // %d of a non-negative integer.
  function Itoa(n: nat): (s: string)
    ensures |s| > 0 && AllDigits(s)
    ensures s[0] == '0' ==> n == 0 && |s| == 1
  {
    if n < 10 then [DigitChar(n)] else Itoa(n / 10) + [DigitChar(n % 10)]
  }

  // n divided by ten k times.
  function Div10(n: nat, k: nat): nat {
    if k == 0 then n else Div10(n / 10, k - 1)
  }

  // The digits are those of the number in base ten, the last one first, and there are no more.
  lemma {:induction false} ItoaDigits(n: nat, k: nat)
    ensures k < |Itoa(n)| ==> Itoa(n)[|Itoa(n)| - 1 - k] as int == '0' as int + Div10(n, k) % 10
    ensures k >= |Itoa(n)| ==> Div10(n, k) == 0
  {
    if k > 0 {
      if n < 10 {
        NothingLeft(k - 1);
      } else {
        ItoaDigits(n / 10, k - 1);
      }
    }
  }

  lemma {:induction false} NothingLeft(k: nat)
    ensures Div10(0, k) == 0
  {
    if k > 0 {
      NothingLeft(k - 1);
    }
  }

  // %d of any integer.
  function ItoaInt(x: int): (s: string)
    ensures |s| > 0
  {
    if x < 0 then "-" + Itoa(-x) else Itoa(x)
  }

  function Value(s: string): nat
    requires AllDigits(s)
  {
    if s == [] then 0 else Value(s[..|s| - 1]) * 10 + DigitValue(s[|s| - 1])
  }

  lemma {:induction false} ValueOfItoa(n: nat)
    ensures Value(Itoa(n)) == n
  {
    if n < 10 {
      assert Itoa(n)[..0] == [];
    } else {
      ValueOfItoa(n / 10);
      assert Itoa(n)[..|Itoa(n)| - 1] == Itoa(n / 10);
    }
  }

  lemma ItoaInjective(m: nat, n: nat)
    requires Itoa(m) == Itoa(n)
    ensures m == n
  {
    ValueOfItoa(m);
    ValueOfItoa(n);
  }

  lemma ItoaIntInjective(x: int, y: int)
    requires ItoaInt(x) == ItoaInt(y)
    ensures x == y
  {
    assert x < 0 <==> ItoaInt(x)[0] == '-';
    assert y < 0 <==> ItoaInt(y)[0] == '-';
    if x < 0 {
      assert ItoaInt(x)[1..] == Itoa(-x) && ItoaInt(y)[1..] == Itoa(-y);
      ItoaInjective(-x, -y);
    } else {
      ItoaInjective(x, y);
    }
  }

  const HEX_DIGITS: string := "0123456789abcdef"

  // %x of a non-negative integer.
  function Hex(n: nat): (s: string)
    ensures |s| > 0 && ':' !in s
    ensures |s| <= 1 <==> n < 16
  {
    if n < 16 then [HEX_DIGITS[n]] else Hex(n / 16) + [HEX_DIGITS[n % 16]]
  }

  // %02x: padded with a zero to two digits, longer when the value needs more.
  function Hex2(n: nat): (s: string)
    ensures |s| >= 2 && ':' !in s
  {
    if n < 16 then "0" + Hex(n) else Hex(n)
  }

  lemma HexDigitsDistinct(a: nat, b: nat)
    requires a < 16 && b < 16 && HEX_DIGITS[a] == HEX_DIGITS[b]
    ensures a == b
  {
  }

  lemma {:induction false} HexInjective(m: nat, n: nat)
    requires Hex(m) == Hex(n)
    ensures m == n
  {
    if m < 16 {
      HexDigitsDistinct(m, n);
    } else {
      assert Hex(m)[..|Hex(m)| - 1] == Hex(m / 16) && Hex(n)[..|Hex(n)| - 1] == Hex(n / 16);
      assert Hex(m)[|Hex(m)| - 1] == HEX_DIGITS[m % 16] && Hex(n)[|Hex(n)| - 1] == HEX_DIGITS[n % 16];
      HexInjective(m / 16, n / 16);
      HexDigitsDistinct(m % 16, n % 16);
    }
  }

  // A printed number of two or more digits does not start with a zero.
  lemma {:induction false} HexLeading(n: nat)
    requires n >= 16
    ensures Hex(n)[0] != '0'
  {
    if n < 256 {
      HexLeadingDigit(n / 16);
    } else {
      HexLeading(n / 16);
    }
  }

  lemma HexLeadingDigit(d: nat)
    requires 0 < d < 16
    ensures HEX_DIGITS[d] != '0'
  {
  }

  lemma Hex2Injective(m: nat, n: nat)
    requires Hex2(m) == Hex2(n)
    ensures m == n
  {
    if m < 16 && n < 16 {
      assert Hex2(m)[1..] == Hex(m) && Hex2(n)[1..] == Hex(n);
      HexInjective(m, n);
    } else if m >= 16 && n >= 16 {
      HexInjective(m, n);
    } else {
      HexLeading(if m < 16 then n else m);
    }
  }

  function IndexOf(s: string, sep: char): (k: nat)
    requires sep in s
    ensures k < |s| && s[k] == sep && sep !in s[..k]
  {
    if s[0] == sep then 0 else 1 + IndexOf(s[1..], sep)
  }

  // The first occurrence of a separator splits a string in only one way.
  lemma SplitAtFirst(a: string, b: string, x: string, y: string, sep: char)
    requires a + [sep] + b == x + [sep] + y
    requires sep !in a && sep !in x
    ensures a == x && b == y
  {
    var s := a + [sep] + b;
    IndexOfFirst(a, b, sep);
    IndexOfFirst(x, y, sep);
    assert a == s[..|a|] && b == s[|a| + 1..];
    assert x == s[..|x|] && y == s[|x| + 1..];
  }

  lemma {:induction false} IndexOfFirst(a: string, b: string, sep: char)
    requires sep !in a
    ensures sep in a + [sep] + b && IndexOf(a + [sep] + b, sep) == |a|
  {
    var s := a + [sep] + b;
    assert s[|a|] == sep;
    if a != [] {
      assert s[1..] == a[1..] + [sep] + b;
      IndexOfFirst(a[1..], b, sep);
    }
  }
}
