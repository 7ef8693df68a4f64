/** Decimal text for integers: Python's `str(n)`, the zero-padded format
    `{n:03}`, and `int(s)` on a string. */
module Decimal {
  import opened Wrappers
  import opened Strings

  predicate IsDigit(c: char) { '0' <= c <= '9' }

  predicate AllDigits(s: string) { forall i :: 0 <= i < |s| ==> IsDigit(s[i]) }

  function DigitChar(d: nat): (c: char)
    requires d < 10
    ensures IsDigit(c)
  {
    ('0' as int + d) as char
  }

  /** Python's `str(n)` for a natural number: no sign, no leading zero. */
  function Digits(n: nat): (s: string)
    ensures |s| >= 1 && AllDigits(s)
    ensures n >= 10 ==> s[0] != '0'
  {
    if n < 10 then [DigitChar(n)] else Digits(n / 10) + [DigitChar(n % 10)]
  }

  /** The number a string of decimal digits denotes (leading zeros allowed). */
  function ValueOf(s: string): nat
    requires AllDigits(s)
  {
    if s == [] then 0 else ValueOf(s[..|s| - 1]) * 10 + (s[|s| - 1] as int - '0' as int)
  }

  /** Reading back the digits of `n` gives `n`. */
  lemma {:induction false} ValueOfDigits(n: nat)
    ensures ValueOf(Digits(n)) == n
  {
    if n >= 10 {
      var s := Digits(n);
      assert s[..|s| - 1] == Digits(n / 10);
      ValueOfDigits(n / 10);
    }
  }

  function Zeros(k: nat): (z: string)
    ensures |z| == k && AllDigits(z)
  {
    seq(k, _ => '0')
  }

  /** Python's `format(s, "0>width")` on the decimal text: zeros in front
      up to `width` characters, longer text left alone. */
  function ZeroPad(s: string, width: nat): (r: string)
    ensures |r| == if |s| < width then width else |s|
  {
    if |s| < width then Zeros(width - |s|) + s else s
  }

  /** Python's `f"{n:03}"` for a natural number. */
  function Pad3(n: nat): (s: string)
    ensures AllDigits(s)
  {
    ZeroPad(Digits(n), 3)
  }

  /** Leading zeros do not change the value a digit string denotes. */
  lemma {:induction false} ValueOfAfterZeros(k: nat, s: string)
    requires AllDigits(s)
    ensures ValueOf(Zeros(k) + s) == ValueOf(s)
    decreases |s|, k
  {
    if s == [] {
      assert Zeros(k) + s == Zeros(k);
      if k > 0 {
        assert Zeros(k)[..k - 1] == Zeros(k - 1);
        ValueOfAfterZeros(k - 1, []);
        assert Zeros(k - 1) + [] == Zeros(k - 1);
      }
    } else {
      var t := Zeros(k) + s;
      assert t[..|t| - 1] == Zeros(k) + s[..|s| - 1];
      ValueOfAfterZeros(k, s[..|s| - 1]);
    }
  }

  /** `{n:03}` can be read back, so distinct numbers get distinct text. */
  lemma Pad3RoundTrip(n: nat)
    ensures ValueOf(Pad3(n)) == n
  {
    ValueOfDigits(n);
    if |Digits(n)| < 3 {
      ValueOfAfterZeros(3 - |Digits(n)|, Digits(n));
    }
  }

  lemma Pad3Injective(a: nat, b: nat)
    requires Pad3(a) == Pad3(b)
    ensures a == b
  {
    Pad3RoundTrip(a);
    Pad3RoundTrip(b);
  }

  /** Below 1000, `{n:03}` is exactly three digits: hundreds, tens, units. */
  lemma Pad3ThreeDigits(n: nat)
    requires n < 1000
    ensures Pad3(n) == [DigitChar(n / 100), DigitChar(n / 10 % 10), DigitChar(n % 10)]
  {
    if n < 10 {
      assert Digits(n) == [DigitChar(n)];
    } else if n < 100 {
      assert Digits(n / 10) == [DigitChar(n / 10)];
      assert Digits(n) == [DigitChar(n / 10), DigitChar(n % 10)];
    } else {
      assert Digits(n / 100) == [DigitChar(n / 100)];
      assert n / 10 / 10 == n / 100;
      assert Digits(n / 10) == [DigitChar(n / 100), DigitChar(n / 10 % 10)];
      assert Digits(n) == [DigitChar(n / 100), DigitChar(n / 10 % 10), DigitChar(n % 10)];
    }
  }

  lemma ThreeDigitOrder(a: nat, b: nat)
    requires a < b < 1000
    ensures a / 100 < b / 100
      || (a / 100 == b / 100 && a / 10 % 10 < b / 10 % 10)
      || (a / 100 == b / 100 && a / 10 % 10 == b / 10 % 10 && a % 10 < b % 10)
  {
    if a / 100 == b / 100 && a / 10 % 10 == b / 10 % 10 {
      assert a / 10 == b / 10;
    }
  }

  /** Below 1000, text order of `{n:03}` agrees with numeric order. */
  lemma Pad3Ordered(a: nat, b: nat)
    requires a < b < 1000
    ensures LexLess(Pad3(a), Pad3(b))
  {
    Pad3ThreeDigits(a);
    Pad3ThreeDigits(b);
    ThreeDigitOrder(a, b);
    var x1, x2, x3 := DigitChar(a / 100), DigitChar(a / 10 % 10), DigitChar(a % 10);
    var y1, y2, y3 := DigitChar(b / 100), DigitChar(b / 10 % 10), DigitChar(b % 10);
    ThreeCharOrder(x1, x2, x3, y1, y2, y3);
  }

  lemma ThreeCharOrder(x1: char, x2: char, x3: char, y1: char, y2: char, y3: char)
    requires x1 < y1 || (x1 == y1 && x2 < y2) || (x1 == y1 && x2 == y2 && x3 < y3)
    ensures LexLess([x1, x2, x3], [y1, y2, y3])
  {
    assert [x1, x2, x3][1..] == [x2, x3] && [y1, y2, y3][1..] == [y2, y3];
    assert [x2, x3][1..] == [x3] && [y2, y3][1..] == [y3];
    assert [x3][1..] == [] && [y3][1..] == [];
  }

  /** From 1000 on the text is longer and its order breaks: `1000` sorts before `999`. */
  lemma Pad3OrderBreaksAt1000()
    ensures LexLess(Pad3(1000), Pad3(999))
  {
    assert Digits(1) == "1";
    assert Digits(10) == "10";
    assert Digits(100) == "100";
    assert Digits(1000) == "1000";
    Pad3ThreeDigits(999);
  }

  /** Python's `int(s)` on a string: surrounding whitespace, an optional
      sign and at least one ASCII digit. */
  function ParseInt(s: string): (r: Option<int>)
  {
    ParseStripped(Strip(s))
  }

  function ParseStripped(t: string): Option<int>
  {
    if t != [] && (t[0] == '+' || t[0] == '-') then
      var body := t[1..];
      if body != [] && AllDigits(body) then
        var v: int := ValueOf(body);
        Some(if t[0] == '-' then -v else v)
      else None
    else if t != [] && AllDigits(t) then Some(ValueOf(t))
    else None
  }

  /** `int(str(n))` gives `n` back. */
  lemma ParseIntOfDigits(n: nat)
    ensures ParseInt(Digits(n)) == Some(n)
  {
    var d := Digits(n);
    ValueOfDigits(n);
    ParseUnsigned(d);
  }

  /** `int("-" + str(n))` gives `-n` back. */
  lemma ParseIntOfNegatedDigits(n: nat)
    ensures ParseInt("-" + Digits(n)) == Some(-(n as int))
  {
    ValueOfDigits(n);
    ParseNegativeValue(Digits(n), n as int);
  }

  lemma ParseNegativeValue(d: string, n: int)
    requires d != [] && AllDigits(d) && ValueOf(d) == n
    ensures ParseInt("-" + d) == Some(-n)
  {
    ParseNegative(d);
    var r := ParseInt("-" + d);
    assert r == Some(-(ValueOf(d) as int));
    assert r.value == -n;
  }

  lemma ParseUnsigned(d: string)
    requires d != [] && AllDigits(d)
    ensures ParseInt(d) == Some(ValueOf(d))
  {
    assert !IsSpace(d[0]) && !IsSpace(d[|d| - 1]);
    StripUnchanged(d);
  }

  lemma ParseNegative(d: string)
    requires d != [] && AllDigits(d)
    ensures ParseInt("-" + d) == Some(-(ValueOf(d) as int))
  {
    var m := "-" + d;
    assert m[0] == '-';
    assert m[|m| - 1] == d[|d| - 1];
    assert !IsSpace(m[|m| - 1]);
    StripUnchanged(m);
    assert m[1..] == d;
    ParseSigned(m, d);
  }

  lemma ParseSigned(m: string, d: string)
    requires d != [] && AllDigits(d) && m != [] && m[0] == '-' && m[1..] == d
    ensures ParseStripped(m) == Some(-(ValueOf(d) as int))
  {
  }
}
