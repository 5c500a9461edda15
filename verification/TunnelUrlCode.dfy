/** The parser and the printer as the source writes them: loops and appends, proved equal to their specification. */
module TunnelUrlCode {
  import opened Wrappers
  import opened Text
  import opened HostPort
  import opened TunnelOptions
  import opened TunnelUrl
  import QueryEscape
  import Decimal

  /** `strings.Join(parts, "")`. */
  function Concat(parts: seq<string>): string {
    if parts == [] then "" else Concat(parts[..|parts| - 1]) + parts[|parts| - 1]
  }

  lemma {:induction false} ConcatAppend(parts: seq<string>, last: string)
    ensures Concat(parts + [last]) == Concat(parts) + last
  {
    assert (parts + [last])[..|parts|] == parts;
  }

  lemma {:induction false} ScanSnoc(kind: string, pieces: seq<string>, piece: string)
    ensures ScanPieces(kind, pieces + [piece]) == ScanPiece(kind, ScanPieces(kind, pieces), piece)
  {
    hide ScanPiece;
    assert (pieces + [piece])[..|pieces|] == pieces;
  }

  lemma {:induction false} ScanNone(kind: string)
    ensures ScanPieces(kind, []) == Scan(DEFAULTS, None, None)
  {
  }

  method ParseParameters(kind: string, query: string) returns (o: Options)
    ensures o == ReadOptions(kind, query)
  {
    hide ScanPieces, SetParam, KeyOf, CutAt, Split;
    var scan := Scan(DEFAULTS, None, None);
    var pieces := Split(query, '&');
    ScanNone(kind);
    for i := 0 to |pieces|
      invariant scan == ScanPieces(kind, pieces[..i])
    {
      ScanSnoc(kind, pieces[..i], pieces[i]);
      assert pieces[..i + 1] == pieces[..i] + [pieces[i]];
      var kv := CutAt(pieces[i], '=');
      if kv.found {
        scan := SetParam(kind, scan, KeyOf(kv.before), kv.after);
      }
    }
    assert pieces[..|pieces|] == pieces;
    o := scan.o;
    if scan.noTcp.Some? || scan.noUdp.Some? {
      var tcpEnabled := scan.noTcp.None? || scan.noTcp.value != "1";
      var udpEnabled := scan.noUdp.None? || scan.noUdp.value != "1";
      if tcpEnabled && udpEnabled {
        o := o.(listenType := Some("ALL"));
      } else if tcpEnabled {
        o := o.(listenType := Some("TCP"));
      } else if udpEnabled {
        o := o.(listenType := Some("UDP"));
      } else {
        o := o.(listenType := None);
      }
    } else {
      o := o.(listenType := None);
    }
  }

  lemma ReprintsSnoc(parts: seq<string>, last: string)
    ensures Reprints(parts + [last]) == Reprints(parts) + [Reprint(last)]
  {
    hide Reprint;
  }

  method ParseTargets(path: string) returns (target: Address, extend: Option<seq<string>>)
    ensures (target, extend) == ReadPath(path)
  {
    hide ParseAddressPort, Reprints, Split;
    var addresses := Split(path, ',');
    target := ParseAddressPort(addresses[0]);
    extend := None;
    if |addresses| > 1 {
      var list := ParseExtra(addresses);
      extend := Some(list);
    }
  }

  /** The loop over the targets behind the first. */
  method ParseExtra(addresses: seq<string>) returns (list: seq<string>)
    requires |addresses| > 1
    ensures list == Reprints(addresses[1..])
  {
    hide ParseAddressPort, Reprints;
    list := [];
    for i := 1 to |addresses|
      invariant list == Reprints(addresses[1..i])
    {
      var a := ParseAddressPort(addresses[i]);
      list := list + [a.host + ":" + a.port];
      ReprintsSnoc(addresses[1..i], addresses[i]);
      assert addresses[1..i + 1] == addresses[1..i] + [addresses[i]];
    }
    assert addresses[1..|addresses|] == addresses[1..];
  }

  method TakeKind(rawURL: string) returns (kind: string, rest: string)
    ensures (kind, rest) == ReadKind(rawURL)
  {
    kind, rest := "", rawURL;
    var scheme := IndexOfText(rest, "://");
    if scheme != -1 {
      var protocol := rest[..scheme];
      rest := rest[scheme + 3..];
      if protocol == "client" {
        kind := "client";
      } else if protocol == "server" {
        kind := "server";
      }
    }
  }

  /** `ParseTunnelURL`: each delimiter is cut off the remaining text in turn. */
  method ParseTunnelURL(rawURL: string) returns (tunnel: Tunnel)
    ensures tunnel == ParseUrl(rawURL)
  {
    hide ReadPath, ReadOptions, ParseAddressPort, ReadKind, CutAt, NonEmpty;
    var kind, rest := TakeKind(rawURL);
    var password: Option<string>;
    password, rest := TakePassword(rest);
    var q := CutAt(rest, '?');
    var h := CutAt(q.before, '/');
    var address := ParseAddressPort(h.before);
    var target, extend := ParseTargets(h.after);
    var options := ParseParameters(kind, q.after);
    tunnel := Tunnel(Config(kind, password, address, target, extend, options), rawURL, "stopped");
  }

  method TakePassword(text: string) returns (password: Option<string>, rest: string)
    ensures (password, rest) == ReadPassword(text)
  {
    password, rest := None, text;
    var user := CutAt(text, '@');
    if user.found {
      rest := user.after;
      if user.before != "" {
        password := Some(user.before);
      }
    }
  }

  /** The first `n` parameters in printing order. */
  ghost function FirstParams(c: Config, n: nat): seq<string>
    requires n <= |URL_ORDER|
  {
    Texts(Listed(URL_ORDER[..n], PrintedBy(c)))
  }

  lemma NextParam(c: Config, n: nat)
    requires n < |URL_ORDER|
    ensures FirstParams(c, n + 1) ==
            FirstParams(c, n) + match Printed(c.kind, c.options, URL_ORDER[n])
                                case Some(val) => [TextOf(Entry(URL_ORDER[n], val))]
                                case None => []
  {
    hide Printed, TextOf;
    assert URL_ORDER[..n + 1][..n] == URL_ORDER[..n];
  }

  /** A parameter that is left out when it is nil or empty. */
  method AppendText(c: Config, n: nat, val: Option<string>, before: seq<string>) returns (params: seq<string>)
    requires n < |URL_ORDER| && Printed(c.kind, c.options, URL_ORDER[n]) == NonEmpty(val)
    requires before == FirstParams(c, n)
    ensures params == FirstParams(c, n + 1)
  {
    hide FirstParams, Printed, TextOf;
    NextParam(c, n);
    params := before;
    if val.Some? && val.value != "" {
      params := params + [TextOf(Entry(URL_ORDER[n], val.value))];
    }
  }

  /** The same with percent-encoding. */
  method AppendPath(c: Config, n: nat, val: Option<string>, before: seq<string>) returns (params: seq<string>)
    requires n < |URL_ORDER| && Printed(c.kind, c.options, URL_ORDER[n]) == Escaped(NonEmpty(val))
    requires before == FirstParams(c, n)
    ensures params == FirstParams(c, n + 1)
  {
    hide FirstParams, Printed, TextOf, QueryEscape.Escape;
    NextParam(c, n);
    params := before;
    if val.Some? && val.value != "" {
      params := params + [TextOf(Entry(URL_ORDER[n], QueryEscape.Escape(val.value)))];
    }
  }

  method AppendNumber(c: Config, n: nat, val: Option<int>, before: seq<string>) returns (params: seq<string>)
    requires n < |URL_ORDER| && Printed(c.kind, c.options, URL_ORDER[n]) == Number(val)
    requires before == FirstParams(c, n)
    ensures params == FirstParams(c, n + 1)
  {
    hide FirstParams, Printed, TextOf, Decimal.Format;
    NextParam(c, n);
    params := before;
    if val.Some? {
      params := params + [TextOf(Entry(URL_ORDER[n], Decimal.Format(val.value)))];
    }
  }

  method AppendTls(c: Config, before: seq<string>) returns (params: seq<string>)
    requires before == FirstParams(c, 1)
    ensures params == FirstParams(c, 2)
  {
    hide FirstParams, TextOf, QueryEscape.Escape, Decimal.Format;
    NextParam(c, 1);
    params := before;
    if c.options.tlsMode != "" && c.kind == "server" {
      params := params + [TextOf(Entry(Tls, c.options.tlsMode))];
    }
  }

  /** The source address is printed even when it is empty. */
  method AppendDial(c: Config, before: seq<string>) returns (params: seq<string>)
    requires before == FirstParams(c, 10)
    ensures params == FirstParams(c, 11)
  {
    hide FirstParams, TextOf, QueryEscape.Escape, Decimal.Format;
    NextParam(c, 10);
    params := before;
    if c.options.dial.Some? {
      params := params + [TextOf(Entry(Dial, QueryEscape.Escape(c.options.dial.value)))];
    }
  }

  /** So is the name server. */
  method AppendDns(c: Config, before: seq<string>) returns (params: seq<string>)
    requires before == FirstParams(c, 11)
    ensures params == FirstParams(c, 12)
  {
    hide FirstParams, TextOf, QueryEscape.Escape, Decimal.Format;
    NextParam(c, 11);
    params := before;
    if c.options.dns.Some? {
      params := params + [TextOf(Entry(Dns, c.options.dns.value))];
    }
  }

  method AppendProxy(c: Config, before: seq<string>) returns (params: seq<string>)
    requires before == FirstParams(c, 15)
    ensures params == FirstParams(c, 16)
  {
    hide FirstParams, TextOf, QueryEscape.Escape, Decimal.Format;
    NextParam(c, 15);
    params := before;
    if c.options.proxy.Some? {
      params := params + [TextOf(Entry(Proxy, if c.options.proxy.value then "1" else "0"))];
    }
  }

  /** Log level, TLS mode and the certificate paths. */
  method PrintModes(c: Config) returns (params: seq<string>)
    ensures params == FirstParams(c, 4)
  {
    assert FirstParams(c, 0) == [];
    hide FirstParams, Escaped, NonEmpty;
    params := AppendText(c, 0, Some(c.options.logLevel), []);
    params := AppendTls(c, params);
    params := AppendPath(c, 2, c.options.certPath, params);
    params := AppendPath(c, 3, c.options.keyPath, params);
  }

  /** Pool bounds and run mode. */
  method PrintBounds(c: Config, before: seq<string>) returns (params: seq<string>)
    requires before == FirstParams(c, 4)
    ensures params == FirstParams(c, 7)
  {
    hide FirstParams, Number, NonEmpty;
    params := AppendNumber(c, 4, c.options.min, before);
    params := AppendNumber(c, 5, c.options.max, params);
    params := AppendNumber(c, 6, c.options.mode, params);
  }

  /** Read timeout, rate and slot limits. */
  method PrintRates(c: Config, before: seq<string>) returns (params: seq<string>)
    requires before == FirstParams(c, 7)
    ensures params == FirstParams(c, 10)
  {
    hide FirstParams, Number, NonEmpty;
    params := AppendText(c, 7, c.options.read, before);
    params := AppendNumber(c, 8, c.options.rate, params);
    params := AppendNumber(c, 9, c.options.slot, params);
  }

  /** Source address, name server, pool type, server name, blocking and the proxy flag. */
  method PrintRoutes(c: Config, before: seq<string>) returns (params: seq<string>)
    requires before == FirstParams(c, 10)
    ensures params == FirstParams(c, 16)
  {
    hide FirstParams, Number, NonEmpty;
    params := AppendDial(c, before);
    params := AppendDns(c, params);
    params := AppendNumber(c, 12, c.options.poolType, params);
    params := AppendText(c, 13, c.options.sni, params);
    params := AppendNumber(c, 14, c.options.block, params);
    params := AppendProxy(c, params);
  }

  /** The listen type is written as two switches. */
  method PrintListenType(c: Config, before: seq<string>) returns (params: seq<string>)
    requires before == FirstParams(c, 16)
    ensures params == FirstParams(c, 18)
  {
    hide FirstParams, TextOf;
    var listenType := c.options.listenType;
    NextParam(c, 16);
    NextParam(c, 17);
    params := before;
    if listenType == Some("TCP") {
      params := params + [TextOf(Entry(NoTcp, "0"))];
      params := params + [TextOf(Entry(NoUdp, "1"))];
    } else if listenType == Some("UDP") {
      params := params + [TextOf(Entry(NoTcp, "1"))];
      params := params + [TextOf(Entry(NoUdp, "0"))];
    } else if listenType == Some("ALL") {
      params := params + [TextOf(Entry(NoTcp, "0"))];
      params := params + [TextOf(Entry(NoUdp, "0"))];
    }
  }

  method PrintParameters(c: Config) returns (params: seq<string>)
    ensures params == Texts(Listed(URL_ORDER, PrintedBy(c)))
  {
    assert URL_ORDER[..18] == URL_ORDER;
    assert FirstParams(c, 18) == Texts(Listed(URL_ORDER, PrintedBy(c)));
    hide FirstParams;
    params := PrintModes(c);
    params := PrintBounds(c, params);
    params := PrintRates(c, params);
    params := PrintRoutes(c, params);
    params := PrintListenType(c, params);
  }

  method AppendAddress(a: Address, before: seq<string>) returns (parts: seq<string>)
    ensures Concat(parts) == Concat(before) + Print(a)
  {
    hide Concat;
    parts := before;
    if a.host != "" {
      ConcatAppend(parts, a.host);
      parts := parts + [a.host];
    }
    if a.port != "" {
      ConcatAppend(parts, ":" + a.port);
      parts := parts + [":" + a.port];
    }
  }

  /** The targets behind the first, each with a comma in front. */
  method AppendExtra(ghost front: string, first: string, extra: seq<string>, before: seq<string>)
    returns (parts: seq<string>)
    requires Concat(before) == front + first
    ensures Concat(parts) == front + Join([first] + extra, ',')
  {
    hide Concat, Join;
    parts := before;
    JoinOne(first, ',');
    assert [first] + extra[..0] == [first];
    for i := 0 to |extra|
      invariant Concat(parts) == front + Join([first] + extra[..i], ',')
    {
      ConcatAppend(parts, "," + extra[i]);
      parts := parts + ["," + extra[i]];
      ghost var joined := [first] + extra[..i];
      JoinAppend(joined, ',', extra[i]);
      assert [first] + extra[..i + 1] == joined + [extra[i]];
      assert front + Join(joined, ',') + ("," + extra[i]) == front + (Join(joined, ',') + [','] + extra[i]);
    }
    assert extra[..|extra|] == extra;
  }

  method AppendTargets(c: Config, before: seq<string>) returns (parts: seq<string>)
    ensures Concat(parts) == Concat(before) + Tail('/', PathOf(c))
  {
    hide Concat, Print, Join;
    parts := before;
    var extra := Extra(c);
    if c.target.host != "" || c.target.port != "" || |extra| > 0 {
      ConcatAppend(parts, "/");
      parts := AppendAddress(c.target, parts + ["/"]);
      parts := AppendExtra(Concat(before) + "/", Print(c.target), extra, parts);
    }
  }

  /** `BuildTunnelURLs`: the parts are appended one by one and joined at the end. */
  method BuildTunnelURLs(c: Config) returns (url: string)
    ensures url == BuildUrl(c)
  {
    hide Listed, Texts, Print, PathOf, Concat, PrintedBy, Join, QueryPart, Tail;
    var protocol := if c.kind == "" then "client" else c.kind;
    var urlParts := [protocol + "://"];
    ConcatOne(protocol + "://");
    if c.password.Some? && c.password.value != "" {
      ConcatAppend(urlParts, c.password.value + "@");
      urlParts := urlParts + [c.password.value + "@"];
    }
    ghost var front := protocol + "://" + PasswordPart(c.password);
    assert Concat(urlParts) == front;
    urlParts := AppendAddress(c.tunnel, urlParts);
    urlParts := AppendTargets(c, urlParts);
    urlParts := AppendQuery(c, urlParts);
    url := Concat(urlParts);
    Regroup(front, Print(c.tunnel), Tail('/', PathOf(c)), Tail('?', QueryPart(c)));
  }

  lemma Regroup(a: string, b: string, c: string, d: string)
    ensures a + b + c + d == a + (b + c + d)
  {
  }

  method AppendQuery(c: Config, before: seq<string>) returns (parts: seq<string>)
    ensures Concat(parts) == Concat(before) + Tail('?', QueryPart(c))
  {
    hide Listed, Texts, Concat, PrintedBy, Join;
    parts := before;
    var params := PrintParameters(c);
    ListedTexts(c, params);
    hide QueryPart;
    if |params| > 0 {
      ConcatAppend(parts, "?" + Join(params, '&'));
      parts := parts + ["?" + Join(params, '&')];
    }
  }

  lemma {:induction false} ListedTexts(c: Config, params: seq<string>)
    requires params == Texts(Listed(URL_ORDER, PrintedBy(c)))
    ensures QueryPart(c) == if params == [] then None else Some(Join(params, '&'))
  {
    hide Listed, Join, TextOf;
  }

  lemma ConcatOne(part: string)
    ensures Concat([part]) == part
  {
    ConcatAppend([], part);
    assert [] + [part] == [part];
  }
}
