/** `url.QueryEscape` and `url.QueryUnescape`: percent-encoding (section 2.1 of RFC 3986), space as '+'. */
module QueryEscape {
  import opened Wrappers

  predicate IsByteText(s: string) {
    forall i :: 0 <= i < |s| ==> s[i] as int < 256
  }

  /** Bytes that are written as themselves. */
  predicate Unreserved(c: char) {
    'a' <= c <= 'z' || 'A' <= c <= 'Z' || '0' <= c <= '9' || c == '-' || c == '_' || c == '.' || c == '~'
  }

  function HexDigit(n: nat): char
    requires n < 16
  {
    if n < 10 then ('0' as int + n) as char else ('A' as int + n - 10) as char
  }

  function HexValue(c: char): Option<nat> {
    if '0' <= c <= '9' then Some(c as int - '0' as int)
    else if 'a' <= c <= 'f' then Some(c as int - 'a' as int + 10)
    else if 'A' <= c <= 'F' then Some(c as int - 'A' as int + 10)
    else None
  }

  function EscapeByte(c: char): (r: string)
    ensures r != ""
    ensures forall d :: d in r ==> Unreserved(d) || d == '%' || d == '+'
  {
    if c == ' ' then "+"
    else if Unreserved(c) then [c]
    else ['%', HexDigit(c as int / 16 % 16), HexDigit(c as int % 16)]
  }

  /** Escaped text holds no URL delimiter: only unreserved bytes, '%' and '+'. */
  function Escape(s: string): (r: string)
    ensures forall d :: d in r ==> Unreserved(d) || d == '%' || d == '+'
    ensures r == "" <==> s == ""
  {
    if s == "" then "" else EscapeByte(s[0]) + Escape(s[1..])
  }

  /** The decoded text, or None where Go reports a malformed escape. */
  function Unescape(s: string): Option<string> {
    if s == "" then Some("")
    else if s[0] == '%' then
      if |s| < 3 || HexValue(s[1]).None? || HexValue(s[2]).None? then None
      else
        match Unescape(s[3..])
        case None => None
        case Some(rest) => Some([(HexValue(s[1]).value * 16 + HexValue(s[2]).value) as char] + rest)
    else
      match Unescape(s[1..])
      case None => None
      case Some(rest) => Some([if s[0] == '+' then ' ' else s[0]] + rest)
  }

  lemma HexRoundTrip(n: nat)
    requires n < 16
    ensures HexValue(HexDigit(n)) == Some(n)
  {
  }

  /** Decoding consumes exactly one encoded byte. */
  lemma {:induction false} UnescapeStep(c: char, tail: string)
    requires c as int < 256
    ensures Unescape(EscapeByte(c) + tail) ==
            match Unescape(tail) { case None => None case Some(rest) => Some([c] + rest) }
  {
    var s := EscapeByte(c) + tail;
    if c == ' ' || Unreserved(c) {
      assert s[0] == EscapeByte(c)[0] && s[1..] == tail;
    } else {
      HexRoundTrip(c as int / 16);
      HexRoundTrip(c as int % 16);
      assert s[0] == '%' && s[1] == HexDigit(c as int / 16) && s[2] == HexDigit(c as int % 16);
      assert s[3..] == tail;
    }
  }

  /** Decoding undoes encoding on every byte string. */
  lemma {:induction false} RoundTrip(s: string)
    requires IsByteText(s)
    ensures Unescape(Escape(s)) == Some(s)
  {
    if s != "" {
      RoundTrip(s[1..]);
      UnescapeStep(s[0], Escape(s[1..]));
      assert s == [s[0]] + s[1..];
    }
  }

  // ------------------------------------------- texts that nobody's escape writes

  const UPPER := "0123456789ABCDEF"
  const LOWER := "0123456789abcdef"

  /** A hexadecimal digit of this value, in either case. */
  predicate Writes(c: char, n: nat) {
    n < 16 && (c == UPPER[n] || c == LOWER[n])
  }

  predicate IsHex(c: char) {
    c in UPPER || c in LOWER
  }

  /** `t` spells the bytes of `s`: escapes in either case, '+' for a space, any other byte for itself. */
  predicate Spells(t: string, s: string) {
    if s == "" then t == ""
    else if t == "" then false
    else if t[0] == '%' then
      |t| >= 3 && s[0] as int < 256 && Writes(t[1], s[0] as int / 16) && Writes(t[2], s[0] as int % 16) &&
        Spells(t[3..], s[1..])
    else if t[0] == '+' then s[0] == ' ' && Spells(t[1..], s[1..])
    else s[0] == t[0] && Spells(t[1..], s[1..])
  }

  lemma HexMeans(c: char, n: nat)
    ensures HexValue(c) == Some(n) <==> Writes(c, n)
  {
    if n < 16 {
      assert n == 0 || n == 1 || n == 2 || n == 3 || n == 4 || n == 5 || n == 6 || n == 7 || n == 8 || n == 9
          || n == 10 || n == 11 || n == 12 || n == 13 || n == 14 || n == 15;
    }
  }

  lemma HexPair(h: nat, l: nat, c: char)
    requires h < 16 && l < 16
    ensures c as int == h * 16 + l <==> c as int < 256 && c as int / 16 == h && c as int % 16 == l
  {
  }

  /** A text is decoded to `s` exactly when it spells `s`. */
  lemma {:induction false} UnescapeMeans(t: string, s: string)
    ensures Unescape(t) == Some(s) <==> Spells(t, s)
    decreases |t|
  {
    if t == "" {
    } else if t[0] == '%' {
      if |t| >= 3 {
        var h, l := HexValue(t[1]), HexValue(t[2]);
        if s != "" {
          UnescapeMeans(t[3..], s[1..]);
          HexMeans(t[1], s[0] as int / 16);
          HexMeans(t[2], s[0] as int % 16);
          HexRange(t[1]);
          HexRange(t[2]);
          if h.Some? && l.Some? {
            HexPair(h.value, l.value, s[0]);
          }
          hide Writes, HexValue;
          EscapeHead(t, s);
        }
      }
    } else {
      if s != "" {
        UnescapeMeans(t[1..], s[1..]);
        PlainHead(t, s);
      }
    }
  }

  lemma HexRange(c: char)
    ensures HexValue(c).Some? ==> HexValue(c).value < 16
  {
  }

  lemma {:induction false} EscapeHead(t: string, s: string)
    requires |t| >= 3 && t[0] == '%' && s != ""
    ensures Unescape(t) == Some(s) <==>
            HexValue(t[1]).Some? && HexValue(t[2]).Some? && Unescape(t[3..]) == Some(s[1..]) &&
            s[0] as int == HexValue(t[1]).value * 16 + HexValue(t[2]).value
  {
    HexRange(t[1]);
    HexRange(t[2]);
    hide HexValue;
    assert s == [s[0]] + s[1..];
    if HexValue(t[1]).Some? && HexValue(t[2]).Some? && Unescape(t[3..]).Some? {
      var c := (HexValue(t[1]).value * 16 + HexValue(t[2]).value) as char;
      var r := [c] + Unescape(t[3..]).value;
      assert r[0] == c && r[1..] == Unescape(t[3..]).value;
    }
  }

  lemma {:induction false} PlainHead(t: string, s: string)
    requires t != "" && t[0] != '%' && s != ""
    ensures Unescape(t) == Some(s) <==>
            Unescape(t[1..]) == Some(s[1..]) && s[0] == if t[0] == '+' then ' ' else t[0]
  {
    assert s == [s[0]] + s[1..];
    if Unescape(t[1..]).Some? {
      var c := if t[0] == '+' then ' ' else t[0];
      var r := [c] + Unescape(t[1..]).value;
      assert r[0] == c && r[1..] == Unescape(t[1..]).value;
    }
  }

  /** A '%' with two hexadecimal digits behind it. */
  predicate EscapeAt(t: string, i: nat) {
    i + 2 < |t| && IsHex(t[i + 1]) && IsHex(t[i + 2])
  }

  lemma HexIsKnown(c: char)
    ensures HexValue(c).Some? <==> IsHex(c)
    ensures IsHex(c) ==> c != '%'
  {
  }

  /** A text is malformed exactly when some '%' is not followed by two hexadecimal digits. */
  lemma {:induction false} MalformedExactly(t: string)
    ensures Unescape(t).Some? <==> forall i :: 0 <= i < |t| && t[i] == '%' ==> EscapeAt(t, i)
    decreases |t|
  {
    if t == "" {
    } else if t[0] == '%' {
      if |t| >= 3 {
        HexIsKnown(t[1]);
        HexIsKnown(t[2]);
      }
      hide HexValue, IsHex;
      if EscapeAt(t, 0) {
        MalformedExactly(t[3..]);
        ShiftedEscapes(t, 3);
      }
    } else {
      MalformedExactly(t[1..]);
      ShiftedEscapes(t, 1);
    }
  }

  lemma ShiftedEscapes(t: string, n: nat)
    requires n <= |t| && forall i :: 0 <= i < n && t[i] == '%' ==> EscapeAt(t, i)
    ensures (forall i :: 0 <= i < |t[n..]| && t[n..][i] == '%' ==> EscapeAt(t[n..], i)) <==>
            (forall i :: 0 <= i < |t| && t[i] == '%' ==> EscapeAt(t, i))
  {
    hide IsHex;
    var rest := t[n..];
    forall i | 0 <= i < |rest| ensures EscapeAt(rest, i) == EscapeAt(t, n + i) && rest[i] == t[n + i] {
    }
    hide EscapeAt;
    if forall i :: 0 <= i < |rest| && rest[i] == '%' ==> EscapeAt(rest, i) {
      forall i | 0 <= i < |t| && t[i] == '%' ensures EscapeAt(t, i) {
        if i >= n {
          assert rest[i - n] == t[i];
        }
      }
    }
  }

  // -------------------------------------------------------- what is printed

  const LOWER_LETTERS := "abcdefghijklmnopqrstuvwxyz"
  const UPPER_LETTERS := "ABCDEFGHIJKLMNOPQRSTUVWXYZ"

  /** The bytes that are never escaped. */
  predicate Safe(c: char) {
    c in LOWER_LETTERS || c in UPPER_LETTERS || c in "0123456789" || c in "-_.~"
  }

  lemma LowerLetters(c: char)
    ensures c in LOWER_LETTERS <==> 'a' <= c <= 'z'
  {
  }

  lemma UpperLetters(c: char)
    ensures c in UPPER_LETTERS <==> 'A' <= c <= 'Z'
  {
  }

  lemma UnreservedIsSafe(c: char)
    ensures Unreserved(c) <==> Safe(c)
  {
    LowerLetters(c);
    UpperLetters(c);
    hide LOWER_LETTERS, UPPER_LETTERS;
  }

  lemma HexDigitIsUpper(n: nat)
    requires n < 16
    ensures HexDigit(n) == UPPER[n]
  {
    assert n == 0 || n == 1 || n == 2 || n == 3 || n == 4 || n == 5 || n == 6 || n == 7 || n == 8 || n == 9
        || n == 10 || n == 11 || n == 12 || n == 13 || n == 14 || n == 15;
  }

  lemma EscapeByteMeans(c: char)
    requires c as int < 256
    ensures EscapeByte(c) ==
            if Safe(c) then [c] else if c == ' ' then "+" else ['%', UPPER[c as int / 16], UPPER[c as int % 16]]
  {
    UnreservedIsSafe(c);
    HexDigitIsUpper(c as int / 16);
    HexDigitIsUpper(c as int % 16);
    assert !Unreserved(' ');
    hide UPPER, Safe, Unreserved, HexDigit;
  }

  /** One byte of a text: letters, digits and four marks as they are, a space as '+', the rest in upper-case hex. */
  lemma {:induction false} EscapeMeans(c: char, rest: string)
    requires c as int < 256
    ensures Escape([c] + rest) ==
            (if Safe(c) then [c] else if c == ' ' then "+" else ['%', UPPER[c as int / 16], UPPER[c as int % 16]]) +
            Escape(rest)
  {
    assert ([c] + rest)[1..] == rest;
    EscapeByteMeans(c);
    hide UPPER, Safe, EscapeByte;
  }
}
