/** Python's rendering of integers as text (`str(n)`, `'{0:b}'.format(n)`,
    `str.zfill`) and its parsing back (`int(s, base)`), for bases 2 to 10. */
module Text {
  import opened Wrappers

  type Base = b: nat | 2 <= b <= 10 witness 2

  function DigitChar(d: nat): char
    requires d < 10
  {
    ('0' as int + d) as char
  }

  predicate IsDigit(c: char, base: Base) {
    '0' <= c <= '9' && (c - '0') as int < base
  }

  predicate AllDigits(s: string, base: Base) {
    forall i :: 0 <= i < |s| ==> IsDigit(s[i], base)
  }

  function DigitValue(c: char): nat
    requires '0' <= c <= '9'
  {
    (c - '0') as nat
  }

  function Zeros(z: nat): (r: string)
    ensures |r| == z
    ensures forall i :: 0 <= i < z ==> r[i] == '0'
  {
    seq(z, _ => '0')
  }

  /** The digits of `n` in `base`, most significant first, without leading
      zeros; `0` is "0". */
  function NatToDigits(n: nat, base: Base): (s: string)
    ensures |s| >= 1
    ensures AllDigits(s, base)
    ensures |s| > 1 ==> s[0] != '0'
    decreases n
  {
    if n < base then [DigitChar(n)]
    else
      DivStep(n, base);
      var p := NatToDigits(n / base, base);
      var d := n % base;
      assert IsDigit(DigitChar(d), base);
      var s := p + [DigitChar(d)];
      assert forall i :: 0 <= i < |p| ==> s[i] == p[i];
      s
  }

  /** `str(i)` for an int. */
  function IntToString(i: int): string {
    if i < 0 then "-" + NatToDigits(-i, 10) else NatToDigits(i, 10)
  }

  /** `'{0:b}'.format(n)` for a natural number. */
  function BinaryString(n: nat): string {
    NatToDigits(n, 2)
  }

  /** The value of a digit string read most significant digit first. */
  function DigitsValue(s: string, base: Base): nat
    requires AllDigits(s, base)
  {
    if s == [] then 0
    else DigitsValue(s[..|s| - 1], base) * base + DigitValue(s[|s| - 1])
  }

  /** `int(s, base)` on plain digit strings: the empty string and any
      character that is not a digit of the base raise ValueError.  The
      whitespace, sign, `0b` prefix and underscores Python also accepts
      are not modelled and raise here too. */
  function ParseDigits(s: string, base: Base): (r: Result<nat>)
    ensures r.Ok? <==> s != [] && AllDigits(s, base)
  {
    if s != [] && AllDigits(s, base)
    then Ok(DigitsValue(s, base))
    else Err(ValueError)
  }

  /** `s.zfill(w)` for a string without a sign. */
  function ZFill(s: string, w: int): (r: string)
    ensures |r| == if |s| >= w then |s| else w
    ensures r[|r| - |s|..] == s
    ensures forall i :: 0 <= i < |r| - |s| ==> r[i] == '0'
  {
    if |s| >= w then s else Zeros(w - |s|) + s
  }

  /** Reading back what NatToDigits wrote gives the number again. */
  lemma {:induction false} DigitsRoundTrip(n: nat, base: Base)
    ensures DigitsValue(NatToDigits(n, base), base) == n
    decreases n
  {
    var s := NatToDigits(n, base);
    if n >= base {
      var q, d := n / base, n % base;
      DivStep(n, base);
      var p := NatToDigits(q, base);
      assert s == p + [DigitChar(d)];
      assert s[..|s| - 1] == p;
      DigitsRoundTrip(q, base);
      assert DigitValue(s[|s| - 1]) == d;
    }
  }

  lemma DivStep(n: nat, base: Base)
    requires n >= base
    ensures n / base < n && n % base < base && n == (n / base) * base + n % base
  {
  }

  lemma NatToDigitsInjective(a: nat, b: nat, base: Base)
    ensures NatToDigits(a, base) == NatToDigits(b, base) ==> a == b
  {
    DigitsRoundTrip(a, base);
    DigitsRoundTrip(b, base);
  }

  /** `str` tells different integers apart. */
  lemma IntToStringInjective(a: int, b: int)
    ensures IntToString(a) == IntToString(b) <==> a == b
  {
    if a < 0 && b < 0 {
      assert NatToDigits(-a, 10) == IntToString(a)[1..];
      assert NatToDigits(-b, 10) == IntToString(b)[1..];
      NatToDigitsInjective(-a, -b, 10);
    } else if a < 0 && b >= 0 {
      assert IsDigit(IntToString(b)[0], 10);
      assert IntToString(a)[0] != IntToString(b)[0];
    } else if a >= 0 && b < 0 {
      assert IsDigit(IntToString(a)[0], 10);
      assert IntToString(a)[0] != IntToString(b)[0];
    } else {
      NatToDigitsInjective(a, b, 10);
    }
  }

  /** Leading zeros do not change the value of a digit string. */
  lemma {:induction false} LeadingZerosValue(z: nat, s: string, base: Base)
    requires AllDigits(s, base)
    ensures AllDigits(Zeros(z) + s, base)
    ensures DigitsValue(Zeros(z) + s, base) == DigitsValue(s, base)
    decreases |s|
  {
    var t := Zeros(z) + s;
    assert AllDigits(t, base) by {
      forall i | 0 <= i < |t| ensures IsDigit(t[i], base) {
        if i >= z { assert t[i] == s[i - z]; }
      }
    }
    if s == [] {
      assert t == Zeros(z);
      ZerosValue(z, base);
    } else {
      LeadingZerosValue(z, s[..|s| - 1], base);
      assert t[..|t| - 1] == Zeros(z) + s[..|s| - 1];
    }
  }

  lemma {:induction false} ZerosValue(z: nat, base: Base)
    ensures AllDigits(Zeros(z), base)
    ensures DigitsValue(Zeros(z), base) == 0
  {
    if z > 0 {
      ZerosValue(z - 1, base);
      assert Zeros(z)[..z - 1] == Zeros(z - 1);
    }
  }

  /** Zero-padding a digit string keeps its value, and parsing it gives that value. */
  lemma ZFillParses(n: nat, w: int, base: Base)
    ensures ParseDigits(ZFill(NatToDigits(n, base), w), base) == Ok(n)
  {
    var s := NatToDigits(n, base);
    DigitsRoundTrip(n, base);
    if |s| < w {
      LeadingZerosValue(w - |s|, s, base);
    }
  }
}
