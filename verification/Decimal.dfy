/** Go's `%d` formatting and `strconv.ParseInt(s, 10, 64)`; `strconv.Atoi` is the same on 64-bit. */
module Decimal {
  import opened Wrappers

  const MIN_INT64: int := -0x8000_0000_0000_0000
  const MAX_INT64: int := 0x7FFF_FFFF_FFFF_FFFF

  predicate IsInt64(n: int) {
    MIN_INT64 <= n <= MAX_INT64
  }

  predicate IsDigit(c: char) {
    '0' <= c <= '9'
  }

  predicate AllDigits(s: string) {
    forall i :: 0 <= i < |s| ==> IsDigit(s[i])
  }

  function DigitsOf(n: nat): (s: string)
    ensures s != "" && AllDigits(s)
  {
    var digit := ('0' as int + n % 10) as char;
    if n < 10 then [digit] else DigitsOf(n / 10) + [digit]
  }

  function DigitsValue(s: string): nat
    requires AllDigits(s)
  {
    if s == "" then 0
    else DigitsValue(s[..|s| - 1]) * 10 + (s[|s| - 1] as int - '0' as int)
  }

  /** `fmt.Sprintf("%d", n)`: an optional '-' followed by digits only. */
  function Format(n: int): (s: string)
    ensures s != ""
    ensures forall c :: c in s ==> IsDigit(c) || c == '-'
  {
    if n < 0 then "-" + DigitsOf(-n) else DigitsOf(n)
  }

  /** The number written by `s`, or None for Go's syntax and range errors. */
  function Parse(s: string): (n: Option<int>)
    ensures n.Some? ==> IsInt64(n.value) && s != ""
  {
    if s == "" then None
    else
      var digits := if s[0] == '-' || s[0] == '+' then s[1..] else s;
      if digits == "" || !AllDigits(digits) then None
      else
        var value := if s[0] == '-' then 0 - DigitsValue(digits) else DigitsValue(digits);
        if IsInt64(value) then Some(value) else None
  }

  lemma {:induction false} DigitsRoundTrip(n: nat)
    ensures DigitsValue(DigitsOf(n)) == n
  {
    if n >= 10 {
      DigitsRoundTrip(n / 10);
      var s := DigitsOf(n);
      assert s[..|s| - 1] == DigitsOf(n / 10);
    } else {
      var s := DigitsOf(n);
      assert s[..0] == "";
    }
  }

  /** Every 64-bit integer is read back from its decimal form. */
  lemma RoundTrip(n: int)
    requires IsInt64(n)
    ensures Parse(Format(n)) == Some(n)
  {
    if n < 0 {
      DigitsRoundTrip(-n);
      assert Format(n)[1..] == DigitsOf(-n);
    } else {
      DigitsRoundTrip(n);
      assert IsDigit(DigitsOf(n)[0]);
    }
  }

  /** Distinct integers, of any size, have distinct decimal forms. */
  lemma Injective(m: int, n: int)
    requires Format(m) == Format(n)
    ensures m == n
  {
    hide DigitsOf, DigitsValue;
    assert IsDigit(DigitsOf(if m < 0 then -m else m)[0]);
    assert IsDigit(DigitsOf(if n < 0 then -n else n)[0]);
    if m < 0 {
      assert Format(m)[1..] == DigitsOf(-m) && Format(n)[1..] == DigitsOf(-n);
      DigitsRoundTrip(-m);
      DigitsRoundTrip(-n);
    } else {
      DigitsRoundTrip(m);
      DigitsRoundTrip(n);
    }
  }

  // -------------------------------------------------- every text of a number

  function Zeros(k: nat): string {
    seq(k, _ => '0')
  }

  /** An optional sign, leading zeros and the digits. */
  predicate Denotes(s: string, n: int) {
    exists k: nat :: k <= |s| && DenotesWith(s, n, k)
  }

  predicate DenotesWith(s: string, n: int, k: nat) {
    var digits := Zeros(k) + DigitsOf(if n < 0 then -n else n);
    (s == digits && n >= 0) || (s == "+" + digits && n >= 0) || (s == "-" + digits && n <= 0)
  }

  lemma {:induction false} LeadingZeros(k: nat, s: string)
    requires AllDigits(s)
    ensures AllDigits(Zeros(k) + s) && DigitsValue(Zeros(k) + s) == DigitsValue(s)
  {
    var text := Zeros(k) + s;
    if s != "" {
      LeadingZeros(k, s[..|s| - 1]);
      assert text[..|text| - 1] == Zeros(k) + s[..|s| - 1];
    } else if k > 0 {
      LeadingZeros(k - 1, s);
      assert text[..|text| - 1] == Zeros(k - 1) + s;
    } else {
      assert text == s;
    }
  }

  lemma DigitsStep(n: nat, d: nat)
    requires d < 10
    ensures DigitsOf(n * 10 + d) == (if n == 0 then "" else DigitsOf(n)) + [('0' as int + d) as char]
  {
    assert (n * 10 + d) / 10 == n && (n * 10 + d) % 10 == d;
    assert "" + [('0' as int + d) as char] == [('0' as int + d) as char];
  }

  lemma {:induction false} ValueStep(front: string, last: char)
    requires AllDigits(front) && IsDigit(last)
    ensures AllDigits(front + [last]) && DigitsValue("") == 0
    ensures DigitsValue(front + [last]) == DigitsValue(front) * 10 + (last as int - '0' as int)
  {
    assert (front + [last])[..|front|] == front;
  }

  /** Every text of digits is its number's own digits behind zeros. */
  lemma {:induction false} DigitsAreNumber(s: string) returns (k: nat)
    requires s != "" && AllDigits(s)
    ensures k <= |s| && s == Zeros(k) + DigitsOf(DigitsValue(s))
  {
    hide DigitsOf, DigitsValue;
    var front, last := s[..|s| - 1], s[|s| - 1];
    assert s == front + [last];
    ValueStep(front, last);
    DigitsStep(DigitsValue(front), last as int - '0' as int);
    if front == "" {
      k := 0;
    } else {
      k := DigitsAreNumber(front);
      if DigitsValue(front) == 0 {
        DigitsStep(0, 0);
        assert Zeros(k) + "0" == Zeros(k + 1);
        k := k + 1;
      }
    }
  }

  /** A text is read as a number exactly when it denotes it and the number fits 64 bits. */
  lemma ParseMeans(s: string, n: int)
    ensures Parse(s) == Some(n) <==> Denotes(s, n) && -9_223_372_036_854_775_808 <= n <= 9_223_372_036_854_775_807
  {
    if Parse(s) == Some(n) {
      ParsedDenotes(s, n);
    }
    if IsInt64(n) && Denotes(s, n) {
      var k: nat :| k <= |s| && DenotesWith(s, n, k);
      DenotedParses(s, n, k);
    }
  }

  lemma ParsedDenotes(s: string, n: int)
    requires Parse(s) == Some(n)
    ensures Denotes(s, n)
  {
    var signed := s[0] == '-' || s[0] == '+';
    var digits := if signed then s[1..] else s;
    var k := DigitsAreNumber(digits);
    assert signed ==> s == [s[0]] + digits;
    assert DigitsValue(digits) == if n < 0 then -n else n;
    hide DigitsOf, DigitsValue, Parse;
    assert DenotesWith(s, n, k);
  }

  lemma {:induction false} SignedParses(digits: string, negative: bool)
    requires AllDigits(digits) && digits != ""
    ensures var n: int := if negative then 0 - DigitsValue(digits) else DigitsValue(digits);
            Parse(if negative then "-" + digits else "+" + digits) == if IsInt64(n) then Some(n) else None
  {
    hide DigitsValue;
    assert (if negative then "-" + digits else "+" + digits)[1..] == digits;
  }

  lemma {:induction false} UnsignedParses(digits: string)
    requires AllDigits(digits) && digits != ""
    ensures Parse(digits) == if IsInt64(DigitsValue(digits)) then Some(DigitsValue(digits)) else None
  {
    hide DigitsValue;
    assert IsDigit(digits[0]);
  }

  lemma DenotedParses(s: string, n: int, k: nat)
    requires IsInt64(n) && DenotesWith(s, n, k)
    ensures Parse(s) == Some(n)
  {
    hide DigitsOf, DigitsValue, Parse, Zeros;
    var own := DigitsOf(if n < 0 then -n else n);
    var digits := Zeros(k) + own;
    DigitsRoundTrip(if n < 0 then -n else n);
    LeadingZeros(k, own);
    UnsignedParses(digits);
    SignedParses(digits, true);
    SignedParses(digits, false);
  }
}
