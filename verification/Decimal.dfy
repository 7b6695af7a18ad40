/** Decimal printing and parsing of 32-bit identifiers, as string interpolation and UInt32(_:) do it. */
module Decimal {
  import opened Bytes

  const U32_LIMIT := 0x1_0000_0000

  type u32 = x: int | 0 <= x < U32_LIMIT

  predicate IsDigit(c: char) {
    '0' <= c <= '9'
  }

  function DigitChar(d: nat): (c: char)
    requires d < 10
    ensures IsDigit(c) && c as int - '0' as int == d
  {
    ('0' as int + d) as char
  }

  function Print(n: nat): (s: string)
    ensures s != []
  {
    if n < 10 then [DigitChar(n)] else Print(n / 10) + [DigitChar(n % 10)]
  }

  predicate AllDigits(s: string) {
    forall i :: 0 <= i < |s| ==> IsDigit(s[i])
  }

  function Value(s: string): nat
    requires AllDigits(s)
  {
    if s == [] then 0 else Value(s[..|s| - 1]) * 10 + (s[|s| - 1] as int - '0' as int)
  }

  /** UInt32(s): an optional sign, at least one digit, and a value that fits; of the negative numbers
      only zero does. */
  function ParseU32(s: string): Option<u32> {
    var negative := s != [] && s[0] == '-';
    var digits := if negative || (s != [] && s[0] == '+') then s[1..] else s;
    if digits != [] && AllDigits(digits) && Value(digits) < (if negative then 1 else U32_LIMIT)
    then Some(Value(digits)) else None
  }

  lemma {:induction false} PrintSpec(n: nat)
    ensures AllDigits(Print(n)) && Value(Print(n)) == n
  {
    if n >= 10 {
      PrintSpec(n / 10);
      assert Print(n)[..|Print(n)| - 1] == Print(n / 10);
    } else {
      assert Print(n)[..0] == [];
    }
  }

  /** Parsing undoes printing, so printing is injective. */
  lemma ParseInvertsPrint(n: u32)
    ensures ParseU32(Print(n)) == Some(n)
  {
    PrintSpec(n);
    assert IsDigit(Print(n)[0]);
  }

  function Zeros(n: nat): string {
    seq(n, _ => '0')
  }

  /** A string of digits is its number without leading zeros, behind some zeros. */
  lemma {:induction false} DigitsAreNumber(s: string)
    requires s != [] && AllDigits(s)
    ensures exists n: nat :: s == Zeros(n) + Print(Value(s))
  {
    var init, last := s[..|s| - 1], s[|s| - 1];
    var d := last as int - '0' as int;
    assert s == init + [last] && last == DigitChar(d);
    if init == [] {
      assert Value(init) == 0;
      assert s == Zeros(0) + Print(Value(s));
    } else {
      DigitsAreNumber(init);
      var n: nat :| init == Zeros(n) + Print(Value(init));
      var z := OneMoreDigit(init, n, Value(init), d);
      assert Value(s) == 10 * Value(init) + d;
      assert s == Zeros(z) + Print(Value(s));
    }
  }

  lemma OneMoreDigit(init: string, n: nat, v: nat, d: nat) returns (z: nat)
    requires d < 10 && init == Zeros(n) + Print(v)
    ensures init + [DigitChar(d)] == Zeros(z) + Print(10 * v + d)
  {
    if v == 0 {
      z := n + 1;
      assert Print(v) == "0" && Print(10 * v + d) == [DigitChar(d)];
    } else {
      z := n;
      assert (10 * v + d) / 10 == v && (10 * v + d) % 10 == d;
      assert Print(10 * v + d) == Print(v) + [DigitChar(d)];
    }
  }

  lemma {:induction false} ZerosAddNothing(n: nat, s: string)
    requires AllDigits(s)
    ensures AllDigits(Zeros(n) + s) && Value(Zeros(n) + s) == Value(s)
  {
    var t := Zeros(n) + s;
    if s != [] {
      ZerosAddNothing(n, s[..|s| - 1]);
      assert t[..|t| - 1] == Zeros(n) + s[..|s| - 1];
    } else if n > 0 {
      ZerosAddNothing(n - 1, s);
      assert t[..n - 1] == Zeros(n - 1) + s;
    }
  }

  /** s is n in decimal, with leading zeros at will. */
  ghost predicate Denotes(s: string, n: u32) {
    exists z: nat :: s == Zeros(z) + Print(n)
  }

  predicate Reads(s: string, n: u32) {
    s != [] && AllDigits(s) && Value(s) == n
  }

  lemma DenotesIs(s: string, n: u32)
    ensures Denotes(s, n) <==> Reads(s, n)
  {
    if s != [] && AllDigits(s) {
      DigitsAreNumber(s);
    }
    if z: nat :| s == Zeros(z) + Print(n) {
      PrintSpec(n);
      ZerosAddNothing(z, Print(n));
    }
  }

  lemma ParseIs(s: string, n: u32)
    ensures ParseU32(s) == Some(n) <==>
              Reads(s, n) || (s != [] && (s[0] == '+' || (s[0] == '-' && n == 0)) && Reads(s[1..], n))
  {
    if s != [] && (s[0] == '+' || s[0] == '-') {
      assert !IsDigit(s[0]);
      assert !AllDigits(s);
    }
  }

  /** Exactly the decimal notations of n, with or without a plus sign, or a minus sign if n is 0, are
      read as n. */
  lemma ParseExactly(s: string, n: u32)
    ensures ParseU32(s) == Some(n) <==>
              Denotes(s, n) || (s != [] && (s[0] == '+' || (s[0] == '-' && n == 0)) && Denotes(s[1..], n))
  {
    ParseIs(s, n);
    DenotesIs(s, n);
    if s != [] {
      DenotesIs(s[1..], n);
    }
  }
}
