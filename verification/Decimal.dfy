/** Decimal printing and Go's `strconv.ParseInt(s, 10, 64)`. */
module Decimal {
  import opened Common

  const MIN_INT64: int := -0x8000_0000_0000_0000
  const MAX_INT64: int := 0x7FFF_FFFF_FFFF_FFFF

  predicate IsInt64(n: int) {
    MIN_INT64 <= n <= MAX_INT64
  }

  predicate IsDigit(c: char) {
    '0' <= c <= '9'
  }

  function DigitOf(d: nat): (c: char)
    requires d < 10
    ensures IsDigit(c) && ValueOf(c) == d
  {
    '0' + d as char
  }

  function ValueOf(c: char): nat
    requires IsDigit(c)
  {
    c as int - '0' as int
  }

  predicate AllDigits(s: string) {
    forall c <- s :: IsDigit(c)
  }

  function Digits(n: nat): (s: string)
    ensures s != [] && AllDigits(s)
  {
    if n < 10 then [DigitOf(n)] else Digits(n / 10) + [DigitOf(n % 10)]
  }

  /** The format verb %d. */
  function Print(n: int): string {
    if n < 0 then "-" + Digits(-n) else Digits(n)
  }

  function Value(s: string): nat
    requires AllDigits(s)
  {
    if s == [] then 0 else 10 * Value(s[..|s| - 1]) + ValueOf(s[|s| - 1])
  }

  /** An optional sign, then at least one digit and nothing else, within 64 bits. */
  function ParseInt(s: string): Option<int> {
    if s == [] then None
    else
      var unsigned := if s[0] == '+' || s[0] == '-' then s[1..] else s;
      if unsigned == [] || !AllDigits(unsigned) then None
      else
        var n: int := if s[0] == '-' then 0 - Value(unsigned) else Value(unsigned);
        if IsInt64(n) then Some(n) else None
  }

  lemma {:induction false} ValueOfDigits(n: nat)
    ensures Value(Digits(n)) == n
  {
    if n >= 10 {
      ValueOfDigits(n / 10);
      var front := Digits(n / 10);
      assert Digits(n)[..|Digits(n)| - 1] == front;
    }
  }

  /** A sign only if negative, and the digits of the absolute value behind it. */
  lemma PrintShape(n: int)
    ensures n < 0 ==> Print(n)[0] == '-' && Print(n)[1..] == Digits(-n)
    ensures n >= 0 ==> IsDigit(Print(n)[0]) && Print(n) == Digits(n)
  {
    if n >= 0 {
      assert Digits(n)[0] in Digits(n);
    }
  }

  /** What is printed parses back, and only that far: outside 64 bits it does not. */
  lemma PrintParses(n: int)
    ensures ParseInt(Print(n)) == if IsInt64(n) then Some(n) else None
  {
    PrintShape(n);
    ValueOfDigits(if n < 0 then -n else n);
  }

  lemma PrintHasNo(n: int, c: char)
    requires !IsDigit(c) && c != '-'
    ensures c !in Print(n)
  {
  }

  lemma PrintInjective(n: int, m: int)
    requires Print(n) == Print(m)
    ensures n == m
  {
    PrintShape(n);
    PrintShape(m);
    ValueOfDigits(if n < 0 then -n else n);
    ValueOfDigits(if m < 0 then -m else m);
  }

  // ----- numerals

  /** The ten digits in their order. */
  lemma DigitTable(d: nat)
    requires d < 10
    ensures DigitOf(d) == "0123456789"[d] && ValueOf("0123456789"[d]) == d
  {
  }

  /** Most significant digit first, without leading zeros. */
  lemma PrintAppends(n: nat, d: nat)
    requires d < 10
    ensures n > 0 ==> Print(10 * n + d) == Print(n) + ["0123456789"[d]]
    ensures Print(d) == ["0123456789"[d]] && (n > 0 ==> Print(0 - n) == "-" + Print(n))
  {
    DigitTable(d);
    assert (10 * n + d) / 10 == n && (10 * n + d) % 10 == d;
  }

  function Zeros(k: nat): string {
    seq(k, _ => '0')
  }

  lemma {:induction false} ZerosDigits(k: nat, s: string)
    requires AllDigits(s)
    ensures AllDigits(Zeros(k) + s) && Value(Zeros(k) + s) == Value(s)
    decreases |s|
  {
    if s == [] {
      ZerosValue(k);
      assert Zeros(k) + s == Zeros(k);
    } else {
      var n := |s| - 1;
      assert s[n] in s && AllDigits(s[..n]);
      ZerosDigits(k, s[..n]);
      assert (Zeros(k) + s)[..|Zeros(k) + s| - 1] == Zeros(k) + s[..n];
    }
  }

  lemma {:induction false} ZerosValue(k: nat)
    ensures Value(Zeros(k)) == 0
  {
    if k > 0 {
      ZerosValue(k - 1);
      assert Zeros(k)[..k - 1] == Zeros(k - 1);
    }
  }

  lemma DigitsGrow(v: nat, c: char)
    requires IsDigit(c)
    ensures v > 0 ==> Digits(10 * v + ValueOf(c)) == Digits(v) + [c]
    ensures v == 0 ==> Digits(10 * v + ValueOf(c)) == [c]
  {
    var d := ValueOf(c);
    assert (10 * v + d) / 10 == v && (10 * v + d) % 10 == d && DigitOf(d) == c;
  }

  /** One digit more. */
  lemma OneMore(k: nat, v: nat, c: char) returns (k': nat)
    requires IsDigit(c)
    ensures Zeros(k) + Digits(v) + [c] == Zeros(k') + Digits(10 * v + ValueOf(c))
  {
    DigitsGrow(v, c);
    if v == 0 {
      k' := k + 1;
      assert Digits(0) == ['0'] && Zeros(k) + ['0'] == Zeros(k + 1);
    } else {
      k' := k;
      Regroup(Zeros(k), Digits(v), [c]);
    }
  }

  /** Every numeral is the printed number behind some zeros. */
  lemma {:induction false} DigitsNumeral(s: string) returns (k: nat)
    requires s != [] && AllDigits(s)
    ensures s == Zeros(k) + Digits(Value(s))
  {
    var n := |s| - 1;
    assert s == s[..n] + [s[n]] && IsDigit(s[n]);
    if n == 0 {
      k := 0;
      assert s[..n] == [] && Zeros(0) == [];
      DigitsGrow(0, s[n]);
    } else {
      assert AllDigits(s[..n]);
      var k0 := DigitsNumeral(s[..n]);
      k := OneMore(k0, Value(s[..n]), s[n]);
    }
  }

  predicate Spells(s: string, sign: string, k: nat, n: int) {
    && (sign == "" || sign == "+" || sign == "-")
    && s == sign + Numeral(k, n)
    && (sign == "-" ==> n <= 0) && (sign != "-" ==> n >= 0)
  }

  function Numeral(k: nat, n: int): string {
    Zeros(k) + Print(if n < 0 then 0 - n else n)
  }

  lemma NumeralValue(k: nat, n: int)
    ensures Numeral(k, n) != [] && AllDigits(Numeral(k, n)) && Value(Numeral(k, n)) == if n < 0 then 0 - n else n
  {
    var m: nat := if n < 0 then 0 - n else n;
    ZerosDigits(k, Digits(m));
    ValueOfDigits(m);
  }

  lemma SignedParses(sign: char, u: string)
    requires (sign == '+' || sign == '-') && u != [] && AllDigits(u)
    ensures var n: int := if sign == '-' then 0 - Value(u) else Value(u);
      ParseInt([sign] + u) == if IsInt64(n) then Some(n) else None
  {
    assert ([sign] + u)[1..] == u;
  }

  lemma PlainParses(u: string)
    requires u != [] && AllDigits(u)
    ensures ParseInt(u) == if IsInt64(Value(u)) then Some(Value(u)) else None
  {
    assert u[0] in u;
  }

  lemma SpellingParses(s: string, sign: string, k: nat, n: int)
    requires IsInt64(n) && Spells(s, sign, k, n)
    ensures ParseInt(s) == Some(n)
  {
    NumeralValue(k, n);
    if sign == "" {
      PlainParses(Numeral(k, n));
      assert s == Numeral(k, n);
    } else {
      SignedParses(sign[0], Numeral(k, n));
    }
  }

  lemma ParsedSpells(s: string, n: int) returns (sign: string, k: nat)
    requires ParseInt(s) == Some(n)
    ensures IsInt64(n) && Spells(s, sign, k, n)
  {
    var signed := s[0] == '+' || s[0] == '-';
    var u := if signed then s[1..] else s;
    sign := if signed then [s[0]] else "";
    k := DigitsNumeral(u);
    assert s == sign + u;
    if signed {
      SignedParses(s[0], u);
    } else {
      PlainParses(u);
    }
  }

  /** The strings that parse as `n`: an optional sign, any number of zeros, and the number printed. */
  lemma ParsesExactly(s: string, n: int)
    ensures ParseInt(s) == Some(n) <==> IsInt64(n) && exists sign: string, k: nat :: Spells(s, sign, k, n)
  {
    if ParseInt(s) == Some(n) {
      var sign, k := ParsedSpells(s, n);
    } else {
      forall sign: string, k: nat | IsInt64(n) && Spells(s, sign, k, n) ensures false {
        SpellingParses(s, sign, k, n);
      }
    }
  }
}
