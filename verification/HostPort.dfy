/** `parseAddressPort` of internal/nodepass/parse.go and the exact condition under which it undoes printing. */
module HostPort {
  import opened Text
  import Decimal

  /** The source's `addr` and `port` results. */
  datatype Address = Address(host: string, port: string)

  /** How both URL builders print an address: the port and its colon only when there is a port. */
  function Print(a: Address): string {
    a.host + if a.port != "" then ":" + a.port else ""
  }

  /** A number in 1..65535, as `strconv.Atoi` reads it. */
  predicate IsPort(s: string) {
    Decimal.Parse(s).Some? && 0 < Decimal.Parse(s).value <= 65535
  }

  predicate ManyColons(s: string) {
    IndexOf(s, ':') < LastIndexOf(s, ':')
  }

  /** The text after the last colon is a port number. */
  predicate EndsInPort(s: string) {
    var last := LastIndexOf(s, ':');
    last != -1 && last < |s| - 1 && IsPort(s[last + 1..])
  }

  /** A text holding "::" has many colons, so the source's second test adds nothing. */
  function SplitColons(p: string): Address
    requires ':' in p
  {
    if ManyColons(p) then
      if EndsInPort(p) then Address(p[..LastIndexOf(p, ':')], p[LastIndexOf(p, ':') + 1..])
      else Address(p, "")
    else Address(p[..IndexOf(p, ':')], p[IndexOf(p, ':') + 1..])
  }

  /** The host up to a bracket, and what stands behind a colon right after it. */
  function SplitBehind(p: string, end: nat): Address
    requires end < |p|
  {
    Address(p[..end + 1], if end + 1 < |p| && p[end + 1] == ':' then p[end + 2..] else "")
  }

  function SplitBracketed(p: string): Address
    requires ']' in p
  {
    SplitBehind(p, IndexOf(p, ']'))
  }

  function ParseTrimmed(p: string): Address {
    if p == "" then Address("", "")
    else if p[0] == ':' then Address("", p[1..])
    else if p[0] == '[' && ']' in p then SplitBracketed(p)
    else if ':' in p then SplitColons(p)
    else if Decimal.Parse(p).Some? then Address("", p)
    else Address(p, "")
  }

  function ParseAddressPort(part: string): Address {
    ParseTrimmed(TrimSpace(part))
  }

  /**
   What a caller can check about a trimmed address before printing it: the host is empty, bracketed,
   colon-free (and not a bare number without a port), or a bare IPv6 host whose port is a port
   number, or that has no port and does not end like one.
   */
  predicate Unambiguous(a: Address) {
    if a.host == "" then true
    else if a.host[0] == ':' then false
    else if a.host[0] == '[' && ']' in Print(a) then IndexOf(a.host, ']') == |a.host| - 1
    else if a.port != "" then ':' !in a.port && (':' !in a.host || IsPort(a.port))
    else if ':' in a.host then ManyColons(a.host) && !EndsInPort(a.host)
    else Decimal.Parse(a.host).None?
  }

  predicate Separable(a: Address) {
    TrimSpace(Print(a)) == Print(a) && Unambiguous(a)
  }

  /** Parsing never makes the printed address longer, except that a bare number becomes a port. */
  lemma ParseShrinks(p: string)
    ensures var a := ParseTrimmed(p); a.host != "" || ':' in p ==> |Print(a)| <= |p|
  {
  }

  /** The host begins the parsed text, and the port ends it. */
  lemma ParsedEnds(p: string)
    ensures ParseTrimmed(p).host <= p
    ensures |ParseTrimmed(p).port| <= |p| && ParseTrimmed(p).port == p[|p| - |ParseTrimmed(p).port|..]
  {
    hide Decimal.Parse, Print, IndexOf, LastIndexOf;
    var a := ParseTrimmed(p);
    if p != "" && p[0] != ':' && !(p[0] == '[' && ']' in p) && ':' in p {
      hide ParseTrimmed;
      assert a == SplitColons(p);
    } else if p != "" && p[0] != ':' && ']' in p && p[0] == '[' {
      hide ParseTrimmed;
      assert a == SplitBracketed(p);
    }
  }

  /** No byte is invented. */
  lemma ParseKeeps(part: string, c: char)
    requires c !in part
    ensures c !in ParseAddressPort(part).host && c !in ParseAddressPort(part).port
  {
    hide SpaceBefore, SpaceBehind, TrimSpace, ParseTrimmed;
    TrimSpaceKeeps(part, c);
    ParsedEnds(TrimSpace(part));
  }

  /** Printing with a port puts a colon right after the host. */
  lemma PrintedWithPort(a: Address)
    requires a.port != ""
    ensures var text := Print(a);
            && |text| == |a.host| + 1 + |a.port|
            && text[..|a.host|] == a.host && text[|a.host|] == ':' && text[|a.host| + 1..] == a.port
            && (forall k :: 0 <= k < |a.host| ==> text[k] == a.host[k])
            && (forall k :: |a.host| < k < |text| ==> text[k] == a.port[k - |a.host| - 1])
  {
  }

  /** Cutting a text at a position and gluing it together again. */
  lemma CutLaw(p: string, i: nat)
    requires i < |p|
    ensures p[..i] + [p[i]] + p[i + 1..] == p
    ensures |p[..i]| == i && |p[i + 1..]| == |p| - i - 1
  {
  }

  lemma ExactBracketed(a: Address)
    requires a.port != "" && ']' in Print(a)
    ensures SplitBracketed(Print(a)) == a <==> IndexOf(a.host, ']') == |a.host| - 1 >= 0
  {
    hide Print, Decimal.Parse, Unambiguous;
    var text := Print(a);
    PrintedWithPort(a);
    var end := IndexOf(text, ']');
    var head := text[..end + 1];
    assert |head| == end + 1;
    if end + 1 == |a.host| {
      assert head == a.host;
      assert text[end + 2..] == a.port;
    }
  }

  lemma ExactColons(a: Address)
    requires a.port != ""
    ensures ':' in Print(a)
    ensures SplitColons(Print(a)) == a <==> ':' !in a.port && (':' !in a.host || IsPort(a.port))
  {
    hide Print, Decimal.Parse, Unambiguous;
    PrintedWithPort(a);
    var text := Print(a);
    var first, last := IndexOf(text, ':'), LastIndexOf(text, ':');
    assert first <= |a.host| <= last;
    assert first == |a.host| <==> ':' !in a.host;
    assert |text[..last]| == last && |text[..first]| == first;
    if last == |a.host| {
      assert text[..last] == a.host && text[last + 1..] == a.port;
    } else {
      assert a.port[last - |a.host| - 1] == ':';
    }
  }

  lemma ColonsAlone(p: string)
    requires ':' in p
    ensures SplitColons(p) == Address(p, "") <==> ManyColons(p) && !EndsInPort(p)
  {
    hide Decimal.Parse, IndexOf, LastIndexOf, EndsInPort;
    assert |p[..LastIndexOf(p, ':')]| < |p| && |p[..IndexOf(p, ':')]| < |p|;
  }

  lemma {:induction false} BracketAlone(p: string)
    requires ']' in p
    ensures SplitBracketed(p) == Address(p, "") <==> IndexOf(p, ']') == |p| - 1
  {
    hide IndexOf;
    var end := IndexOf(p, ']');
    assert |p[..end + 1]| == end + 1;
    if end + 1 == |p| {
      assert p[..end + 1] == p;
    }
  }

  lemma ExactWithoutPort(a: Address)
    requires a.port == ""
    ensures ParseTrimmed(a.host) == a <==> Unambiguous(a)
  {
    hide Decimal.Parse, IndexOf, LastIndexOf, SplitBracketed, SplitColons, ManyColons, EndsInPort;
    assert Print(a) == a.host;
    hide Print;
    if a.host != "" && a.host[0] != ':' {
      if a.host[0] == '[' && ']' in a.host {
        BracketAlone(a.host);
      } else if ':' in a.host {
        ColonsAlone(a.host);
      }
    }
  }

  lemma ExactWithPort(a: Address)
    requires a.port != ""
    ensures ParseTrimmed(Print(a)) == a <==> Unambiguous(a)
  {
    hide Decimal.Parse, IndexOf, LastIndexOf, SplitBracketed, SplitColons, ManyColons, EndsInPort, IsPort, Print;
    var text := Print(a);
    PrintedWithPort(a);
    ExactColons(a);
    if a.host == "" {
      assert text[1..] == a.port;
    } else if a.host[0] == '[' && ']' in text {
      assert text[0] == a.host[0];
      ExactBracketed(a);
    } else {
      assert text[0] == a.host[0];
    }
  }

  lemma ExactTrimmed(a: Address)
    ensures ParseTrimmed(Print(a)) == a <==> Unambiguous(a)
  {
    hide ParseTrimmed, Unambiguous;
    if a.port == "" {
      assert Print(a) == a.host;
      ExactWithoutPort(a);
    } else {
      ExactWithPort(a);
    }
  }

  /** The address round trip holds exactly for separable addresses. */
  lemma Exact(a: Address)
    ensures ParseAddressPort(Print(a)) == a <==> Separable(a)
  {
    hide SpaceBefore, SpaceBehind, ParseTrimmed, Unambiguous;
    var text := Print(a);
    ExactTrimmed(a);
    if TrimSpace(text) != text && ParseAddressPort(text) == a {
      ParseShrinks(TrimSpace(text));
      TrimSpaceHas(text, ':');
      if a.port != "" {
        PrintedWithPort(a);
      }
    }
  }

  function Rejoin(a: Address): string {
    a.host + ":" + a.port
  }

  /** What the parser stores for one more target: a colon even when the port is empty. */
  function Reprint(part: string): string {
    Rejoin(ParseAddressPort(part))
  }

  predicate SplitsAtColon(e: string)
    requires ':' in e
  {
    if e[0] == ':' then true
    else if e[0] == '[' && ']' in e then IndexOf(e, ']') + 1 < |e| && e[IndexOf(e, ']') + 1] == ':'
    else ManyColons(e) ==> EndsInPort(e)
  }

  /** Trimmed host:port texts that the parser splits at the intended colon. */
  predicate IsHostPort(e: string) {
    TrimSpace(e) == e && ':' in e && SplitsAtColon(e)
  }

  lemma RejoinFacts(a: Address)
    ensures var text := Rejoin(a);
            && |text| == |a.host| + 1 + |a.port| && text[|a.host|] == ':'
            && (a.host != "" ==> text[0] == a.host[0])
            && (a.port != "" ==> text[|text| - 1] == a.port[|a.port| - 1])
  {
  }

  /** Gluing a text together behind one of its positions. */
  lemma RejoinAt(p: string, end: nat)
    requires end < |p|
    ensures Rejoin(SplitBehind(p, end)) == p <==> end + 1 < |p| && p[end + 1] == ':'
  {
    if end + 1 < |p| && p[end + 1] == ':' {
      CutLaw(p, end + 1);
    } else {
      var text := Rejoin(Address(p[..end + 1], ""));
      assert |text| == end + 2 && text[end + 1] == ':';
    }
  }

  lemma {:induction false} RejoinBracketed(p: string)
    requires ']' in p
    ensures Rejoin(SplitBracketed(p)) == p <==> IndexOf(p, ']') + 1 < |p| && p[IndexOf(p, ']') + 1] == ':'
  {
    hide Rejoin, IndexOf, SplitBehind;
    RejoinAt(p, IndexOf(p, ']'));
  }

  lemma RejoinColons(p: string)
    requires ':' in p
    ensures Rejoin(SplitColons(p)) == p <==> (ManyColons(p) ==> EndsInPort(p))
  {
    hide Decimal.Parse, Print, ParseTrimmed;
    if !ManyColons(p) || EndsInPort(p) {
      CutLaw(p, if ManyColons(p) then LastIndexOf(p, ':') else IndexOf(p, ':'));
    } else {
      hide Rejoin;
      RejoinFacts(SplitColons(p));
    }
  }

  lemma RejoinTrimmed(p: string)
    requires ':' in p
    ensures Rejoin(ParseTrimmed(p)) == p <==> SplitsAtColon(p)
  {
    hide Decimal.Parse, Print;
    if p[0] == ':' {
      CutLaw(p, 0);
    } else if p[0] == '[' && ']' in p {
      RejoinBracketed(p);
    } else {
      RejoinColons(p);
    }
  }

  lemma ColonIsNoSpace(t: string)
    requires ':' in t
    ensures !IsSpaceText(t)
  {
    if IsSpaceText(t) {
      SpaceIsInvisible(t, ':');
    }
  }

  /** White space at either end of a text does not reach over a colon. */
  lemma RejoinStartsAt(a: Address, n: nat)
    requires StartsInSpace(Rejoin(a), n)
    ensures StartsInSpace(a.host, n)
  {
    hide IsSpaceText;
    var text := Rejoin(a);
    if n > |a.host| {
      assert text[..n][|a.host|] == ':';
      ColonIsNoSpace(text[..n]);
    }
    assert n <= |a.host| ==> text[..n] == a.host[..n];
  }

  lemma RejoinStopsAt(a: Address, n: nat)
    requires EndsInSpace(Rejoin(a), n)
    ensures EndsInSpace(a.port, n)
  {
    hide IsSpaceText;
    var text := Rejoin(a);
    if n > |a.port| {
      assert text[|text| - n..][n - |a.port| - 1] == ':';
      ColonIsNoSpace(text[|text| - n..]);
    }
    assert n <= |a.port| ==> text[|text| - n..] == a.port[|a.port| - n..];
  }

  lemma RejoinStarts(a: Address)
    requires SpaceBefore(a.host) == 0
    ensures SpaceBefore(Rejoin(a)) == 0
  {
    hide StartsInSpace, Rejoin;
    if SpaceBefore(Rejoin(a)) != 0 {
      RejoinStartsAt(a, SpaceBefore(Rejoin(a)));
    }
  }

  lemma RejoinStops(a: Address)
    requires SpaceBehind(a.port) == 0
    ensures SpaceBehind(Rejoin(a)) == 0
  {
    hide EndsInSpace, Rejoin;
    if SpaceBehind(Rejoin(a)) != 0 {
      RejoinStopsAt(a, SpaceBehind(Rejoin(a)));
    }
  }

  /** What the parser stores for a trimmed text is trimmed. */
  lemma RejoinEnds(p: string)
    requires SpaceBefore(p) == 0 && SpaceBehind(p) == 0
    ensures TrimSpace(Rejoin(ParseTrimmed(p))) == Rejoin(ParseTrimmed(p))
  {
    hide SpaceBefore, SpaceBehind, ParseTrimmed, Rejoin;
    var a := ParseTrimmed(p);
    ParsedEnds(p);
    assert a.host == p[..|a.host|];
    PrefixSpace(p, |a.host|);
    SuffixSpace(p, |p| - |a.port|);
    RejoinStarts(a);
    RejoinStops(a);
  }

  /** An extra target survives parsing exactly when it is a host:port text. */
  lemma ReprintExact(e: string)
    ensures Reprint(e) == e <==> IsHostPort(e)
  {
    hide SpaceBefore, SpaceBehind, ParseTrimmed, SplitsAtColon;
    var p := TrimSpace(e);
    TrimmedStarts(e);
    RejoinEnds(p);
    if ':' in e {
      assert ':' in p by { TrimSpaceHas(e, ':'); }
      RejoinTrimmed(p);
    } else {
      var a := ParseAddressPort(e);
      assert Reprint(e)[|a.host|] == ':';
    }
  }

  /** Behind a bracketed host, anything but a colon is dropped. */
  lemma BracketDropsRest(host: string, rest: string)
    requires ']' !in host
    ensures var a := ParseTrimmed("[" + host + "]" + rest);
            && a.host == "[" + host + "]"
            && a.port == (if rest != "" && rest[0] == ':' then rest[1..] else "")
  {
    hide Decimal.Parse, IndexOf;
    var p := "[" + host + "]" + rest;
    var end := |host| + 1;
    assert p[0] == '[' && p[end] == ']' && forall k :: 0 <= k < end ==> p[k] != ']';
    assert IndexOf(p, ']') == end;
    assert p[..end + 1] == "[" + host + "]" && p[end + 1..] == rest;
    assert rest != "" ==> p[end + 1] == rest[0] && p[end + 2..] == rest[1..];
  }

  /**
   Behind a host with colons of its own, a number from 1 to 65535 is the port, and any other text is part
   of the host.
   */
  lemma BareHostReads(host: string, port: string)
    requires ':' in host && host[0] != ':' && host[0] != '[' && ':' !in port
    ensures var a := ParseTrimmed(host + ":" + port);
            && ((exists n :: 1 <= n <= 65535 && Decimal.Denotes(port, n)) ==> a == Address(host, port))
            && (!(exists n :: 1 <= n <= 65535 && Decimal.Denotes(port, n)) ==> a == Address(host + ":" + port, ""))
  {
    PortIsNumber(port);
    hide Decimal.Parse, Decimal.Denotes, IsPort;
    var p := host + ":" + port;
    var i := IndexOf(host, ':');
    assert p[..|host|] == host && p[|host| + 1..] == port && p[|host|] == ':';
    assert p[i] == ':';
    assert forall k :: |host| < k < |p| ==> p[k] == port[k - |host| - 1];
    assert LastIndexOf(p, ':') == |host|;
    assert IndexOf(p, ':') <= i;
    assert port == "" ==> !IsPort(port) by {
      NoPort();
    }
  }

  lemma PortIsNumber(port: string)
    ensures IsPort(port) <==> exists n :: 1 <= n <= 65535 && Decimal.Denotes(port, n)
  {
    hide Decimal.Parse, Decimal.Denotes;
    if IsPort(port) {
      Decimal.ParseMeans(port, Decimal.Parse(port).value);
    }
    forall n | 1 <= n <= 65535 && Decimal.Denotes(port, n) ensures IsPort(port) {
      Decimal.ParseMeans(port, n);
    }
  }

  lemma NoPort()
    ensures !IsPort("")
  {
  }
}
