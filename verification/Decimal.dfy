/** Go's decimal numerals: strconv.Atoi with its clamping and strconv.Itoa. */
module Decimal {

  const MAX_INT := 0x7FFF_FFFF_FFFF_FFFF
  const MIN_INT := -0x8000_0000_0000_0000
  const MAX_UINT := 0xFFFF_FFFF_FFFF_FFFF

  predicate IsDigit(c: char) {
    '0' <= c <= '9'
  }

  function DigitValue(c: char): (d: nat)
    requires IsDigit(c)
    ensures d < 10
  {
    (c - '0') as int
  }

  function DigitChar(d: nat): (c: char)
    requires d < 10
    ensures IsDigit(c) && DigitValue(c) == d
  {
    '0' + d as char
  }

  /** Reading digits from the left: a character that is no digit, or a prefix beyond 64
      unsigned bits, ends the scan, whichever comes first. */
  datatype Scan = Number(n: nat) | NotANumber | Overflow

  function ScanFrom(s: string, n: nat): (r: Scan) {
    if s == "" then Number(n)
    else if !IsDigit(s[0]) then NotANumber
    else if n * 10 + DigitValue(s[0]) > MAX_UINT then Overflow
    else ScanFrom(s[1..], n * 10 + DigitValue(s[0]))
  }

  predicate HasSign(s: string) {
    s != "" && (s[0] == '-' || s[0] == '+')
  }

  function Body(s: string): string {
    if HasSign(s) then s[1..] else s
  }

  /** strconv.Atoi: the value and whether there was an error. Out-of-range numbers are
      clamped to the range, anything else that is no number becomes zero. */
  function Atoi(s: string): (r: (int, bool))
    ensures MIN_INT <= r.0 <= MAX_INT
  {
    var negative := s != "" && s[0] == '-';
    if Body(s) == "" then (0, true)
    else
      match ScanFrom(Body(s), 0)
      case NotANumber => (0, true)
      case Overflow => (if negative then MIN_INT else MAX_INT, true)
      case Number(n) =>
        var value := if negative then -(n as int) else n as int;
        if value < MIN_INT then (MIN_INT, true)
        else if value > MAX_INT then (MAX_INT, true)
        else (value, false)
  }

  function Digits(n: nat): (s: string) {
    if n < 10 then [DigitChar(n)] else Digits(n / 10) + [DigitChar(n % 10)]
  }

  /** strconv.Itoa. */
  function Itoa(n: int): (s: string) {
    if n < 0 then "-" + Digits(-n) else Digits(n)
  }

  // ------------------------------------------------- canonical numerals

  /** Digits without a leading zero, except the numeral "0" itself. */
  predicate CanonicalDigits(s: string) {
    s != "" && (forall i :: 0 <= i < |s| ==> IsDigit(s[i])) && (s[0] == '0' ==> |s| == 1)
  }

  /** What Itoa can print: "-0" and a plus sign it never does. */
  predicate Canonical(s: string) {
    if s != "" && s[0] == '-' then CanonicalDigits(s[1..]) && s != "-0" else CanonicalDigits(s)
  }

  function Numeral(s: string): (n: nat)
    requires forall i :: 0 <= i < |s| ==> IsDigit(s[i])
  {
    if s == "" then 0 else Numeral(s[..|s| - 1]) * 10 + DigitValue(s[|s| - 1])
  }

  /** A canonical numeral whose value a signed 64-bit integer can hold. */
  predicate Representable(s: string) {
    && Canonical(s)
    && if s[0] == '-' then Numeral(s[1..]) <= -MIN_INT else Numeral(s) <= MAX_INT
  }

  function ValueFrom(s: string, n: nat): (v: nat)
    requires forall i :: 0 <= i < |s| ==> IsDigit(s[i])
    ensures v >= n
  {
    if s == "" then n else ValueFrom(s[1..], n * 10 + DigitValue(s[0]))
  }

  /** Scanning from the left computes the numeral, defined from the right. */
  lemma {:induction false} ValueFromSnoc(s: string, c: char, n: nat)
    requires (forall i :: 0 <= i < |s| ==> IsDigit(s[i])) && IsDigit(c)
    ensures ValueFrom(s + [c], n) == ValueFrom(s, n) * 10 + DigitValue(c)
  {
    if s == "" {
      assert (s + [c])[1..] == "";
      assert ValueFrom("", n * 10 + DigitValue(c)) == n * 10 + DigitValue(c);
    } else {
      assert (s + [c])[1..] == s[1..] + [c];
      ValueFromSnoc(s[1..], c, n * 10 + DigitValue(s[0]));
    }
  }

  lemma {:induction false} ValueFromIsNumeral(s: string)
    requires forall i :: 0 <= i < |s| ==> IsDigit(s[i])
    ensures ValueFrom(s, 0) == Numeral(s)
  {
    if s != "" {
      var n := |s| - 1;
      ValueFromIsNumeral(s[..n]);
      ValueFromSnoc(s[..n], s[n], 0);
      assert s == s[..n] + [s[n]];
    }
  }

  lemma {:induction false} ScanOfDigits(s: string, n: nat)
    requires (forall i :: 0 <= i < |s| ==> IsDigit(s[i])) && n <= MAX_UINT
    ensures ScanFrom(s, n) == if ValueFrom(s, n) <= MAX_UINT then Number(ValueFrom(s, n)) else Overflow
  {
    if s != "" && n * 10 + DigitValue(s[0]) <= MAX_UINT {
      ScanOfDigits(s[1..], n * 10 + DigitValue(s[0]));
    }
  }

  /** Printing a number gives its canonical numeral. */
  lemma {:induction false} DigitsAreCanonical(n: nat)
    ensures CanonicalDigits(Digits(n)) && Numeral(Digits(n)) == n
    ensures n > 0 ==> Digits(n)[0] != '0'
  {
    if n >= 10 {
      DigitsAreCanonical(n / 10);
      var s := Digits(n / 10);
      assert Digits(n)[..|s|] == s;
    } else {
      assert Digits(n)[..0] == "";
      assert DigitChar(n) == '0' ==> n == 0;
    }
  }

  /** Printing the value of a canonical numeral gives the numeral back. */
  lemma {:induction false} DigitsOfNumeral(s: string)
    requires CanonicalDigits(s)
    ensures Digits(Numeral(s)) == s
    ensures s[0] != '0' ==> Numeral(s) > 0
  {
    var n := |s| - 1;
    var front, d := s[..n], DigitValue(s[n]);
    assert s == front + [s[n]] && DigitChar(d) == s[n];
    if n == 0 {
      assert front == "" && Numeral(s) == d;
      assert s[0] != '0' ==> d > 0;
    } else {
      DigitsOfNumeral(front);
      var m := Numeral(front);
      assert m > 0 && Numeral(s) == m * 10 + d;
      DigitsSnoc(m, d);
    }
  }

  lemma DigitsSnoc(m: nat, d: nat)
    requires m > 0 && d < 10
    ensures Digits(m * 10 + d) == Digits(m) + [DigitChar(d)]
  {
    assert (m * 10 + d) / 10 == m && (m * 10 + d) % 10 == d;
  }

  // --------------------------------------------------- Atoi and Itoa as inverses

  lemma AtoiOfDigits(s: string)
    requires CanonicalDigits(s)
    ensures Numeral(s) <= MAX_INT ==> Atoi(s) == (Numeral(s), false)
    ensures Numeral(s) <= -MIN_INT ==> Atoi("-" + s) == (-(Numeral(s) as int), false)
  {
    assert Body("-" + s) == s && Body(s) == s;
    ScanOfDigits(s, 0);
    ValueFromIsNumeral(s);
  }

  /** Reading what was printed: the identity on the whole signed 64-bit range. */
  lemma AtoiUndoesItoa(n: int)
    requires MIN_INT <= n <= MAX_INT
    ensures Atoi(Itoa(n)) == (n, false)
    ensures Representable(Itoa(n))
  {
    var digits := Digits(if n < 0 then -n else n);
    DigitsAreCanonical(if n < 0 then -n else n);
    AtoiOfDigits(digits);
    assert IsDigit(digits[0]);
    if n < 0 {
      assert ("-" + digits)[1..] == digits;
    }
  }

  /** What Atoi makes of any text: digits with an optional sign are the number, or, with an
      error, the end of the range it lies beyond; a text with nothing else than a sign, or
      that starts with something else than digits, is zero with an error. */
  lemma AtoiCases(digits: string, negative: bool, sign: string)
    requires digits != "" && (forall i :: 0 <= i < |digits| ==> '0' <= digits[i] <= '9')
    requires sign == "-" || (!negative && (sign == "" || sign == "+"))
    requires negative <==> sign == "-"
    ensures var n: int := if negative then -(Numeral(digits) as int) else Numeral(digits);
            Atoi(sign + digits) == if n < -9223372036854775808 then (-9223372036854775808, true)
                                   else if n > 9223372036854775807 then (9223372036854775807, true)
                                   else (n, false)
  {
    assert Body(sign + digits) == digits by {
      if sign == "" {
        assert sign + digits == digits && IsDigit(digits[0]);
      } else {
        assert (sign + digits)[1..] == digits;
      }
    }
    ScanOfDigits(digits, 0);
    ValueFromIsNumeral(digits);
  }

  lemma {:induction false} ScanOfMixed(digits: string, c: char, rest: string, n: nat)
    requires (forall i :: 0 <= i < |digits| ==> IsDigit(digits[i])) && !IsDigit(c) && n <= MAX_UINT
    ensures ScanFrom(digits + [c] + rest, n) == if ValueFrom(digits, n) <= MAX_UINT then NotANumber else Overflow
  {
    var s := digits + [c] + rest;
    if digits != "" {
      assert s[0] == digits[0] && s[1..] == digits[1..] + [c] + rest;
      if n * 10 + DigitValue(digits[0]) <= MAX_UINT {
        ScanOfMixed(digits[1..], c, rest, n * 10 + DigitValue(digits[0]));
      }
    }
  }

  /** When something else follows the digits the result is zero with an error, unless the
      digits alone are beyond 64 unsigned bits: then it is the end of the range. */
  lemma AtoiOfMixed(digits: string, c: char, rest: string)
    requires digits != "" && (forall i :: 0 <= i < |digits| ==> IsDigit(digits[i])) && !IsDigit(c)
    ensures Atoi(digits + [c] + rest) == (if Numeral(digits) <= MAX_UINT then 0 else MAX_INT, true)
    ensures Atoi("-" + (digits + [c] + rest)) == (if Numeral(digits) <= MAX_UINT then 0 else MIN_INT, true)
  {
    var s := digits + [c] + rest;
    assert s[0] == digits[0] && IsDigit(s[0]) && Body(s) == s;
    assert ("-" + s)[1..] == s && Body("-" + s) == s;
    ScanOfMixed(digits, c, rest, 0);
    ValueFromIsNumeral(digits);
  }

  lemma AtoiOfNoNumber(s: string)
    ensures s == "" || s == "-" || s == "+" ==> Atoi(s) == (0, true)
    ensures s != "" && s[0] !in {'-', '+'} && !('0' <= s[0] <= '9') ==> Atoi(s) == (0, true)
  {}

  /** The numeral of a text of digits, from the right. */
  lemma NumeralIs(s: string, c: char)
    requires (forall i :: 0 <= i < |s| ==> IsDigit(s[i])) && IsDigit(c)
    ensures Numeral("") == 0 && Numeral(s + [c]) == 10 * Numeral(s) + (c as int - '0' as int)
  {
    assert (s + [c])[..|s|] == s;
  }

  /** Printing what was read, errors ignored: the identity exactly on the canonical
      numerals of the signed 64-bit range. */
  lemma ItoaUndoesAtoiIff(s: string)
    ensures Itoa(Atoi(s).0) == s <==> Representable(s)
  {
    AtoiUndoesItoa(Atoi(s).0);
    if Representable(s) {
      if s[0] == '-' {
        assert s == "-" + s[1..];
        AtoiOfDigits(s[1..]);
        DigitsOfNumeral(s[1..]);
      } else {
        AtoiOfDigits(s);
        DigitsOfNumeral(s);
      }
    }
  }
}
