/**
 The string operations of Go's `strings` package that the tunnel URL code uses.
 A string is a sequence of bytes in UTF-8; one `char` below 256 stands for one byte.
 */
module Text {

  /** First position of `c` in `s`, or -1. */
  function IndexOf(s: string, c: char): (i: int)
    ensures -1 <= i < |s|
    ensures i == -1 <==> c !in s
    ensures i >= 0 ==> s[i] == c
    ensures forall k :: 0 <= k < i ==> s[k] != c
  {
    if s == "" then -1
    else if s[0] == c then 0
    else
      var r := IndexOf(s[1..], c);
      if r == -1 then -1 else r + 1
  }

  /** Last position of `c` in `s`, or -1. */
  function LastIndexOf(s: string, c: char): (i: int)
    ensures -1 <= i < |s|
    ensures i == -1 <==> c !in s
    ensures i >= 0 ==> s[i] == c
    ensures i >= 0 ==> forall k :: i < k < |s| ==> s[k] != c
  {
    if s == "" then -1
    else if s[|s| - 1] == c then |s| - 1
    else LastIndexOf(s[..|s| - 1], c)
  }

  /** First position at which `p` occurs in `s`, or -1. */
  function IndexOfText(s: string, p: string): (i: int)
    ensures -1 <= i && i + |p| <= |s| + |p|
    ensures i >= 0 ==> p <= s[i..]
    ensures forall k :: 0 <= k < (if i < 0 then |s| else i) ==> !(p <= s[k..])
  {
    if p <= s then 0
    else if s == "" then -1
    else
      var r := IndexOfText(s[1..], p);
      assert forall k :: 1 <= k <= |s| ==> s[k..] == s[1..][k - 1..];
      if r == -1 then -1 else r + 1
  }

  /** The text before and after the first separator. */
  datatype Halves = Halves(before: string, after: string, found: bool)

  /** Splits `s` at the first `c`; without one, everything is `before`. */
  function CutAt(s: string, c: char): (h: Halves)
    ensures h.found <==> c in s
    ensures h.found ==> s == h.before + [c] + h.after
    ensures !h.found ==> h.before == s && h.after == ""
    ensures c !in h.before
  {
    var i := IndexOf(s, c);
    if i == -1 then Halves(s, "", false) else Halves(s[..i], s[i + 1..], true)
  }

  /** A separator-free prefix is exactly what the cut returns. */
  lemma CutOfConcat(a: string, c: char, b: string)
    requires c !in a
    ensures CutAt(a + [c] + b, c) == Halves(a, b, true)
  {
    var s := a + [c] + b;
    assert s[|a|] == c && forall k :: 0 <= k < |a| ==> s[k] == a[k];
    assert IndexOf(s, c) == |a|;
    assert s[..|a|] == a && s[|a| + 1..] == b;
  }

  /** All pieces of `s` between separators. */
  function Split(s: string, c: char): (xs: seq<string>)
    ensures |xs| >= 1
    ensures forall x :: x in xs ==> c !in x
  {
    var h := CutAt(s, c);
    if !h.found then [s] else [h.before] + Split(h.after, c)
  }

  /** Concatenation with a separator between neighbours. */
  function Join(xs: seq<string>, c: char): string {
    if xs == [] then ""
    else if |xs| == 1 then xs[0]
    else xs[0] + [c] + Join(xs[1..], c)
  }

  lemma {:induction false} JoinOne(part: string, c: char)
    ensures Join([part], c) == part
  {
  }

  lemma {:induction false} JoinStep(xs: seq<string>, c: char)
    requires |xs| > 1
    ensures Join(xs, c) == xs[0] + [c] + Join(xs[1..], c)
  {
  }

  lemma {:induction false} JoinAppend(xs: seq<string>, c: char, last: string)
    requires xs != []
    ensures Join(xs + [last], c) == Join(xs, c) + [c] + last
  {
    if |xs| > 1 {
      JoinAppend(xs[1..], c, last);
      assert (xs + [last])[1..] == xs[1..] + [last];
    }
  }

  /** A byte other than the separator occurs in the joined text only inside a piece. */
  lemma {:induction false} JoinHas(xs: seq<string>, c: char, d: char)
    requires d != c
    ensures d in Join(xs, c) <==> exists i :: 0 <= i < |xs| && d in xs[i]
  {
    if |xs| == 1 {
      assert d in xs[0] <==> d in Join(xs, c);
    } else if |xs| > 1 {
      JoinHas(xs[1..], c, d);
      assert forall i :: 1 <= i < |xs| ==> xs[i] == xs[1..][i - 1];
      assert forall i :: 0 <= i < |xs| - 1 ==> xs[1..][i] == xs[i + 1];
    }
  }

  /** Every byte of a piece comes from the split text. */
  lemma {:induction false} SplitHas(s: string, c: char, d: char)
    requires d !in s
    ensures forall x :: x in Split(s, c) ==> d !in x
  {
    var h := CutAt(s, c);
    if h.found {
      SplitHas(h.after, c, d);
    }
  }

  lemma {:induction false} SplitWhole(s: string, c: char)
    requires c !in s
    ensures Split(s, c) == [s]
  {
  }

  lemma {:induction false} SplitStep(a: string, c: char, b: string)
    requires c !in a
    ensures Split(a + [c] + b, c) == [a] + Split(b, c)
  {
    CutOfConcat(a, c, b);
    hide CutAt;
  }

  /** `Split` undoes `Join` on separator-free pieces. */
  lemma {:induction false} SplitOfJoin(xs: seq<string>, c: char)
    requires xs != [] && forall x :: x in xs ==> c !in x
    ensures Split(Join(xs, c), c) == xs
  {
    hide Split, Join;
    assert xs == [xs[0]] + xs[1..] && xs[0] in xs;
    if |xs| > 1 {
      assert forall x :: x in xs[1..] ==> x in xs;
      SplitOfJoin(xs[1..], c);
      SplitStep(xs[0], c, Join(xs[1..], c));
      JoinStep(xs, c);
    } else {
      assert xs == [xs[0]];
      SplitWhole(xs[0], c);
      JoinOne(xs[0], c);
    }
  }

  /** The white space of one byte. */
  predicate IsSpace(c: char) {
    c == ' ' || '\t' <= c <= '\r'
  }

  /** The bytes of one white-space character of Go's `unicode.IsSpace`, in UTF-8. */
  predicate IsSpaceText(t: string) {
    if |t| == 1 then IsSpace(t[0])
    else if |t| == 2 then t[0] == '\U{C2}' && (t[1] == '\U{85}' || t[1] == '\U{A0}')
    else if |t| == 3 then
      || (t[0] == '\U{E1}' && t[1] == '\U{9A}' && t[2] == '\U{80}')
      || (t[0] == '\U{E2}' && t[1] == '\U{80}' &&
          ('\U{80}' <= t[2] <= '\U{8A}' || t[2] == '\U{A8}' || t[2] == '\U{A9}' || t[2] == '\U{AF}'))
      || (t[0] == '\U{E2}' && t[1] == '\U{81}' && t[2] == '\U{9F}')
      || (t[0] == '\U{E3}' && t[1] == '\U{80}' && t[2] == '\U{80}')
    else false
  }

  /** The UTF-8 encoding (section 3 of RFC 3629) of a code point of up to three bytes. */
  function Utf8(n: nat): string
    requires n < 0xD800
  {
    if n < 0x80 then [n as char]
    else if n < 0x800 then [(0xC0 + n / 64) as char, (0x80 + n % 64) as char]
    else [(0xE0 + n / 4096) as char, (0x80 + n / 64 % 64) as char, (0x80 + n % 64) as char]
  }

  /** The characters of Unicode's White_Space property. */
  predicate IsWhite(n: nat) {
    9 <= n <= 13 || n == 0x20 || n == 0x85 || n == 0xA0 || n == 0x1680 || 0x2000 <= n <= 0x200A ||
    n == 0x2028 || n == 0x2029 || n == 0x202F || n == 0x205F || n == 0x3000
  }

  /** The texts that count as white space are the encodings of exactly these characters. */
  lemma SpacesAreWhite(n: nat, t: string)
    requires n < 0xD800
    ensures IsSpaceText(Utf8(n)) <==> IsWhite(n)
    ensures IsSpaceText(t) ==> exists m :: 0 <= m < 0xD800 && t == Utf8(m)
  {
    WhiteIsSpace(n);
    if IsSpaceText(t) {
      var m := SpaceIsEncoded(t);
    }
  }

  lemma WhiteIsSpace(n: nat)
    requires n < 0xD800
    ensures IsSpaceText(Utf8(n)) <==> IsWhite(n)
  {
    if n >= 0x800 {
      ThreeBytes(n, n / 4096, n / 64 % 64, n % 64);
    } else if n >= 0x80 {
      TwoBytes(n, n / 64, n % 64);
    }
  }

  lemma TwoBytes(n: nat, high: nat, low: nat)
    requires 0x80 <= n < 0x800 && n == high * 64 + low && low < 64
    ensures (high == 2 && (low == 5 || low == 0x20)) <==> n == 0x85 || n == 0xA0
  {
  }

  lemma ThreeBytes(n: nat, high: nat, mid: nat, low: nat)
    requires 0x800 <= n < 0xD800 && n == high * 4096 + mid * 64 + low && mid < 64 && low < 64
    ensures IsWhite(n) <==>
            || (high == 1 && mid == 0x1A && low == 0)
            || (high == 2 && mid == 0 && (low <= 0xA || low == 0x28 || low == 0x29 || low == 0x2F))
            || (high == 2 && mid == 1 && low == 0x1F)
            || (high == 3 && mid == 0 && low == 0)
  {
  }

  lemma SpaceIsEncoded(t: string) returns (m: nat)
    requires IsSpaceText(t)
    ensures m < 0xD800 && t == Utf8(m)
  {
    m := if |t| == 1 then t[0] as int
    else if |t| == 2 then (t[0] as int - 0xC0) * 64 + (t[1] as int - 0x80)
    else (t[0] as int - 0xE0) * 4096 + (t[1] as int - 0x80) * 64 + (t[2] as int - 0x80);
  }

  predicate StartsInSpace(s: string, n: nat) {
    n <= |s| && IsSpaceText(s[..n])
  }

  predicate EndsInSpace(s: string, n: nat) {
    n <= |s| && IsSpaceText(s[|s| - n..])
  }

  /** The length of the white-space character that a text begins with, or zero. */
  function SpaceBefore(s: string): (n: nat)
    ensures n <= |s| && (n > 0 ==> StartsInSpace(s, n))
  {
    if StartsInSpace(s, 1) then 1 else if StartsInSpace(s, 2) then 2 else if StartsInSpace(s, 3) then 3 else 0
  }

  /** The length of the one that it ends with. */
  function SpaceBehind(s: string): (n: nat)
    ensures n <= |s| && (n > 0 ==> EndsInSpace(s, n))
  {
    if EndsInSpace(s, 1) then 1 else if EndsInSpace(s, 2) then 2 else if EndsInSpace(s, 3) then 3 else 0
  }

  function TrimLeft(s: string): (r: string)
    ensures |r| <= |s| && SpaceBefore(r) == 0
    ensures |r| == |s| <==> SpaceBefore(s) == 0
    ensures |r| == |s| ==> r == s
  {
    if SpaceBefore(s) == 0 then s else TrimLeft(s[SpaceBefore(s)..])
  }

  function TrimRight(s: string): (r: string)
    ensures |r| <= |s| && SpaceBehind(r) == 0
    ensures |r| == |s| <==> SpaceBehind(s) == 0
    ensures |r| == |s| ==> r == s
  {
    if SpaceBehind(s) == 0 then s else TrimRight(s[..|s| - SpaceBehind(s)])
  }

  /** The text without leading and trailing white space. */
  function TrimSpace(s: string): (r: string)
    ensures |r| <= |s| && SpaceBehind(r) == 0
    ensures r == s <==> SpaceBefore(s) == 0 && SpaceBehind(s) == 0
    ensures |r| == |s| ==> r == s
  {
    TrimRight(TrimLeft(s))
  }

  /** White space in front of a part of a text is in front of the text. */
  lemma PrefixStarts(s: string, n: nat, k: nat)
    requires n <= |s| && StartsInSpace(s[..n], k)
    ensures StartsInSpace(s, k)
  {
    hide IsSpaceText;
    assert s[..n][..k] == s[..k];
  }

  lemma PrefixSpace(s: string, n: nat)
    requires n <= |s| && SpaceBefore(s) == 0
    ensures SpaceBefore(s[..n]) == 0
  {
    hide StartsInSpace;
    if SpaceBefore(s[..n]) != 0 {
      PrefixStarts(s, n, SpaceBefore(s[..n]));
    }
  }

  lemma SuffixAt(s: string, n: nat, k: nat)
    requires n + k <= |s|
    ensures s[n..][|s| - n - k..] == s[|s| - k..]
  {
  }

  lemma SuffixEnds(s: string, n: nat, k: nat)
    requires n <= |s| && EndsInSpace(s[n..], k)
    ensures EndsInSpace(s, k)
  {
    hide IsSpaceText;
    SuffixAt(s, n, k);
  }

  lemma SuffixSpace(s: string, n: nat)
    requires n <= |s| && SpaceBehind(s) == 0
    ensures SpaceBehind(s[n..]) == 0
  {
    hide EndsInSpace;
    if SpaceBehind(s[n..]) != 0 {
      SuffixEnds(s, n, SpaceBehind(s[n..]));
    }
  }

  lemma {:induction false} TrimLeftIsSuffix(s: string)
    ensures TrimLeft(s) == s[|s| - |TrimLeft(s)|..]
  {
    hide SpaceBefore, IsSpaceText;
    var n := SpaceBefore(s);
    if n > 0 {
      TrimLeftIsSuffix(s[n..]);
      SuffixAt(s, n, |TrimLeft(s)|);
    }
  }

  lemma {:induction false} TrimRightIsPrefix(s: string)
    ensures TrimRight(s) == s[..|TrimRight(s)|]
  {
    hide SpaceBehind, IsSpaceText;
    var n := SpaceBehind(s);
    if n > 0 {
      TrimRightIsPrefix(s[..|s| - n]);
      assert s[..|s| - n][..|TrimRight(s)|] == s[..|TrimRight(s)|];
    }
  }

  lemma TrimmedStarts(s: string)
    ensures SpaceBefore(TrimSpace(s)) == 0
  {
    hide SpaceBefore, SpaceBehind, TrimLeft, TrimRight;
    var left := TrimLeft(s);
    TrimRightIsPrefix(left);
    PrefixSpace(left, |TrimRight(left)|);
  }

  /** A byte that no white-space character contains. */
  predicate IsVisible(c: char) {
    !IsSpace(c) && c < '\U{80}'
  }

  lemma SpaceIsInvisible(t: string, c: char)
    requires IsSpaceText(t) && IsVisible(c)
    ensures c !in t
  {
    if |t| == 1 {
      assert t == [t[0]];
    } else if |t| == 2 {
      assert t == [t[0], t[1]];
    } else {
      assert t == [t[0], t[1], t[2]];
    }
  }

  lemma {:induction false} TrimLeftHas(s: string, c: char)
    requires IsVisible(c)
    ensures c in TrimLeft(s) <==> c in s
  {
    hide SpaceBefore, IsVisible, IsSpaceText;
    var n := SpaceBefore(s);
    if n > 0 {
      TrimLeftHas(s[n..], c);
      SpaceIsInvisible(s[..n], c);
      assert s == s[..n] + s[n..];
    }
  }

  lemma {:induction false} TrimRightHas(s: string, c: char)
    requires IsVisible(c)
    ensures c in TrimRight(s) <==> c in s
  {
    hide SpaceBehind, IsVisible, IsSpaceText;
    var n := SpaceBehind(s);
    if n > 0 {
      TrimRightHas(s[..|s| - n], c);
      SpaceIsInvisible(s[|s| - n..], c);
      assert s == s[..|s| - n] + s[|s| - n..];
    }
  }

  /** Trimming loses no visible byte. */
  lemma TrimSpaceHas(s: string, c: char)
    requires IsVisible(c)
    ensures c in TrimSpace(s) <==> c in s
  {
    hide IsVisible;
    TrimLeftHas(s, c);
    TrimRightHas(TrimLeft(s), c);
  }

  /** And it invents none. */
  lemma TrimSpaceKeeps(s: string, c: char)
    requires c !in s
    ensures c !in TrimSpace(s)
  {
    hide SpaceBefore, SpaceBehind, TrimLeft, TrimRight;
    TrimLeftIsSuffix(s);
    TrimRightIsPrefix(TrimLeft(s));
  }

  /** The encodings of the two characters beyond ASCII whose lower-case form is an ASCII letter. */
  const DOTTED_I := "\U{C4}\U{B0}"
  const KELVIN := "\U{E2}\U{84}\U{AA}"

  /** The lower-case form, as far as it concerns ASCII letters; other characters stay beyond ASCII. */
  function ToLower(s: string): (r: string)
    ensures |r| <= |s|
    ensures forall i :: 0 <= i < |r| ==> !('A' <= r[i] <= 'Z')
  {
    if s == "" then ""
    else if |s| >= 2 && s[..2] == DOTTED_I then "i" + ToLower(s[2..])
    else if |s| >= 3 && s[..3] == KELVIN then "k" + ToLower(s[3..])
    else [if 'A' <= s[0] <= 'Z' then (s[0] as int + 32) as char else s[0]] + ToLower(s[1..])
  }

  lemma {:induction false} LowerStays(s: string)
    requires forall i :: 0 <= i < |s| ==> 'a' <= s[i] <= 'z'
    ensures ToLower(s) == s
  {
    if s != "" {
      LowerStays(s[1..]);
      assert |s| >= 2 ==> s[..2][0] == s[0];
      assert |s| >= 3 ==> s[..3][0] == s[0];
      assert s == [s[0]] + s[1..];
    }
  }

  /** The two characters beyond ASCII with an ASCII lower-case letter are that letter, wherever they stand. */
  lemma {:induction false} SpecialLetters(rest: string)
    ensures ToLower(DOTTED_I + rest) == "i" + ToLower(rest)
    ensures ToLower(KELVIN + rest) == "k" + ToLower(rest)
  {
    var s, t := DOTTED_I + rest, KELVIN + rest;
    assert s[..2] == DOTTED_I && s[2..] == rest && t[..3] == KELVIN && t[3..] == rest;
    assert t[..2][0] != DOTTED_I[0];
  }
}
