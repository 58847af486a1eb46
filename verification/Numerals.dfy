/**
 Decimal numerals: reading them as strconv.Atoi does, against writing them by
 repeated division.
 */
module Numerals {

  // strconv.Atoi on a 64-bit platform
  const MAX_INT: int := 0x7FFF_FFFF_FFFF_FFFF
  const MIN_INT: int := -0x8000_0000_0000_0000

  datatype Number = NotANumber | Number(value: int)

  predicate IsDigit(c: char) {
    '0' <= c <= '9'
  }

  predicate AllDigits(s: string) {
    forall i :: 0 <= i < |s| ==> IsDigit(s[i])
  }

  function Decimal(s: string): nat
    requires AllDigits(s)
  {
    if s == [] then 0 else 10 * Decimal(s[..|s| - 1]) + (s[|s| - 1] as int - '0' as int)
  }

  /** strconv.Atoi: an optional sign, at least one digit, within the platform's int. */
  function Atoi(s: string): Number {
    var signed := s != [] && (s[0] == '+' || s[0] == '-');
    var digits := if signed then s[1..] else s;
    if digits == [] || !AllDigits(digits) then NotANumber
    else
      var value: int := if signed && s[0] == '-' then 0 - Decimal(digits) else Decimal(digits);
      if MIN_INT <= value <= MAX_INT then Number(value) else NotANumber
  }

  // ---------------------------------------------------------------- what a numeral denotes

  const DIGITS: string := "0123456789"

  /** The usual spelling of a number. */
  function Spelled(n: nat): string {
    if n < 10 then [DIGITS[n]] else Spelled(n / 10) + [DIGITS[n % 10]]
  }

  function Zeros(k: nat): string {
    seq(k, _ => '0')
  }

  lemma DigitsAreDigits(d: nat)
    requires d < 10
    ensures IsDigit(DIGITS[d]) && DIGITS[d] as int - '0' as int == d
  {
  }

  lemma DigitOfChar(c: char)
    requires IsDigit(c)
    ensures 0 <= c as int - '0' as int < 10 && DIGITS[c as int - '0' as int] == c
  {
  }

  /** Reading what was written gives the number back. */
  lemma {:induction false} ReadsSpelled(n: nat)
    ensures Spelled(n) != [] && AllDigits(Spelled(n)) && Decimal(Spelled(n)) == n
  {
    DigitsAreDigits(n % 10);
    if n < 10 {
      assert Spelled(n)[..0] == [];
    } else {
      ReadsSpelled(n / 10);
      assert Spelled(n)[..|Spelled(n)| - 1] == Spelled(n / 10);
    }
  }

  /** Leading zeros change nothing. */
  lemma {:induction false} LeadingZeros(k: nat, s: string)
    requires AllDigits(s)
    ensures AllDigits(Zeros(k) + s) && Decimal(Zeros(k) + s) == Decimal(s)
    decreases k + |s|
  {
    var whole := Zeros(k) + s;
    if s != [] {
      LeadingZeros(k, s[..|s| - 1]);
      assert whole[..|whole| - 1] == Zeros(k) + s[..|s| - 1];
    } else if k > 0 {
      LeadingZeros(k - 1, s);
      assert whole[..|whole| - 1] == Zeros(k - 1) + s;
    }
  }

  /** The digits say n: its spelling behind any number of zeros. */
  ghost predicate Says(s: string, n: nat) {
    exists k: nat :: s == Zeros(k) + Spelled(n)
  }

  /** The last digit and what stands before it. */
  lemma LastDigit(s: string) returns (init: string, d: nat)
    requires s != [] && AllDigits(s)
    ensures |init| == |s| - 1 && AllDigits(init) && d < 10 && s == init + [DIGITS[d]]
    ensures Decimal(s) == 10 * Decimal(init) + d
  {
    init, d := s[..|s| - 1], s[|s| - 1] as int - '0' as int;
    DigitOfChar(s[|s| - 1]);
  }

  lemma {:induction false} SaysItsDecimal(s: string)
    requires s != [] && AllDigits(s)
    ensures Says(s, Decimal(s))
    decreases |s|
  {
    var init, d := LastDigit(s);
    if init == [] {
      SaysDigit(d);
    } else {
      SaysItsDecimal(init);
      var k: nat :| init == Zeros(k) + Spelled(Decimal(init));
      SaysOneMore(s, init, k, d);
    }
  }

  lemma SaysDigit(d: nat)
    requires d < 10
    ensures Says([DIGITS[d]], d)
  {
    assert [DIGITS[d]] == Zeros(0) + Spelled(d);
  }

  lemma SaysOneMore(s: string, init: string, k: nat, d: nat)
    requires AllDigits(init) && d < 10 && s == init + [DIGITS[d]] && init == Zeros(k) + Spelled(Decimal(init))
    ensures Says(s, 10 * Decimal(init) + d)
  {
    var n := Decimal(init);
    if n == 0 {
      assert Spelled(0) == "0" && s == Zeros(k + 1) + Spelled(d);
    } else {
      assert (10 * n + d) / 10 == n && (10 * n + d) % 10 == d;
      assert s == Zeros(k) + Spelled(10 * n + d);
    }
  }

  /** A string of digits denotes n if and only if it is the spelling of n behind zeros. */
  lemma DecimalExactly(s: string, n: nat)
    requires s != [] && AllDigits(s)
    ensures Decimal(s) == n <==> Says(s, n)
  {
    SaysItsDecimal(s);
    if k: nat :| s == Zeros(k) + Spelled(n) {
      ReadsSpelled(n);
      LeadingZeros(k, Spelled(n));
    }
  }

  function Abs(v: int): nat {
    if v < 0 then -v else v
  }

  /** An optional sign, then digits that say the number. */
  ghost predicate Writes(s: string, v: int) {
    || (v >= 0 && Says(s, v))
    || (v >= 0 && s != [] && s[0] == '+' && Says(s[1..], v))
    || (v <= 0 && s != [] && s[0] == '-' && Says(s[1..], Abs(v)))
  }

  lemma SaidIsDigits(s: string, n: nat)
    requires Says(s, n)
    ensures s != [] && AllDigits(s)
  {
    var k: nat :| s == Zeros(k) + Spelled(n);
    ReadsSpelled(n);
    LeadingZeros(k, Spelled(n));
  }

  /** Atoi answers v if and only if the text writes v and v fits 64 bits. */
  lemma AtoiExactly(s: string, v: int)
    ensures Atoi(s) == Number(v) <==> Writes(s, v) && MIN_INT <= v <= MAX_INT
  {
    if Writes(s, v) {
      if Says(s, Abs(v)) && v >= 0 {
        SaidIsDigits(s, v);
        assert IsDigit(s[0]);
        DecimalExactly(s, v);
      } else {
        SaidIsDigits(s[1..], Abs(v));
        DecimalExactly(s[1..], Abs(v));
      }
    }
    if Atoi(s) == Number(v) {
      var signed := s[0] == '+' || s[0] == '-';
      DecimalExactly(if signed then s[1..] else s, Abs(v));
    }
  }
}
