/** The second printer as the source writes it: part after part, parameter after parameter. */
module TunnelConfigCode {
  import opened Wrappers
  import opened Text
  import opened HostPort
  import opened TunnelOptions
  import opened TunnelUrl
  import opened TunnelConfigUrl
  import Code = TunnelUrlCode
  import QueryEscape

  /** The first `n` parameters in this printer's order. */
  ghost function FirstParams(t: TunnelConfig, n: nat): seq<string>
    requires n <= |CONFIG_ORDER|
  {
    Texts(Listed(CONFIG_ORDER[..n], PrintedByConfig(t)))
  }

  lemma NextParam(t: TunnelConfig, n: nat)
    requires n < |CONFIG_ORDER|
    ensures FirstParams(t, n + 1) ==
            FirstParams(t, n) + match PrintedConfig(t, CONFIG_ORDER[n])
                                case Some(val) => [TextOf(Entry(CONFIG_ORDER[n], val))]
                                case None => []
  {
    hide PrintedConfig, TextOf;
    assert CONFIG_ORDER[..n + 1][..n] == CONFIG_ORDER[..n];
  }

  /** A parameter that is left out when its text is empty. */
  method AppendGiven(t: TunnelConfig, n: nat, val: string, before: seq<string>) returns (params: seq<string>)
    requires n < |CONFIG_ORDER| && PrintedConfig(t, CONFIG_ORDER[n]) == Given(val) && before == FirstParams(t, n)
    ensures params == FirstParams(t, n + 1)
  {
    hide FirstParams, PrintedConfig, TextOf;
    NextParam(t, n);
    params := before;
    if val != "" {
      params := params + [TextOf(Entry(CONFIG_ORDER[n], val))];
    }
  }

  /** The same with percent-encoding. */
  method AppendEscaped(t: TunnelConfig, n: nat, val: string, before: seq<string>) returns (params: seq<string>)
    requires n < |CONFIG_ORDER| && PrintedConfig(t, CONFIG_ORDER[n]) == Escaped(Given(val)) &&
             before == FirstParams(t, n)
    ensures params == FirstParams(t, n + 1)
  {
    hide FirstParams, PrintedConfig, TextOf, QueryEscape.Escape;
    NextParam(t, n);
    params := before;
    if val != "" {
      params := params + [TextOf(Entry(CONFIG_ORDER[n], QueryEscape.Escape(val)))];
    }
  }

  method AppendTls(t: TunnelConfig, before: seq<string>) returns (params: seq<string>)
    requires before == FirstParams(t, 1)
    ensures params == FirstParams(t, 2)
  {
    hide FirstParams, TextOf, QueryEscape.Escape;
    NextParam(t, 1);
    params := before;
    if t.tlsMode != "" && t.kind == "server" {
      params := params + [TextOf(Entry(Tls, t.tlsMode))];
    }
  }

  method PrintModes(t: TunnelConfig) returns (params: seq<string>)
    ensures params == FirstParams(t, 4)
  {
    assert FirstParams(t, 0) == [];
    hide FirstParams, QueryEscape.Escape;
    params := AppendGiven(t, 0, t.logLevel, []);
    params := AppendTls(t, params);
    params := AppendEscaped(t, 2, t.certPath, params);
    params := AppendEscaped(t, 3, t.keyPath, params);
  }

  method PrintBounds(t: TunnelConfig, before: seq<string>) returns (params: seq<string>)
    requires before == FirstParams(t, 4)
    ensures params == FirstParams(t, 7)
  {
    hide FirstParams, QueryEscape.Escape;
    params := AppendGiven(t, 4, t.min, before);
    params := AppendGiven(t, 5, t.max, params);
    params := AppendGiven(t, 6, t.mode, params);
  }

  method PrintLimits(t: TunnelConfig, before: seq<string>) returns (params: seq<string>)
    requires before == FirstParams(t, 7)
    ensures params == FirstParams(t, 12)
  {
    hide FirstParams;
    params := AppendGiven(t, 7, t.read, before);
    params := AppendGiven(t, 8, t.rate, params);
    params := AppendGiven(t, 9, t.slot, params);
    params := AppendGiven(t, 10, t.proxy, params);
    params := AppendGiven(t, 11, t.poolType, params);
  }

  method PrintRoutes(t: TunnelConfig, before: seq<string>) returns (params: seq<string>)
    requires before == FirstParams(t, 12)
    ensures params == FirstParams(t, 16)
  {
    hide FirstParams;
    params := AppendEscaped(t, 12, t.dial, before);
    params := AppendGiven(t, 13, t.dns, params);
    params := AppendGiven(t, 14, t.sni, params);
    params := AppendGiven(t, 15, t.block, params);
  }

  /** The listen type is written as two switches. */
  method PrintListenType(t: TunnelConfig, before: seq<string>) returns (params: seq<string>)
    requires before == FirstParams(t, 16)
    ensures params == FirstParams(t, 18)
  {
    hide FirstParams, TextOf;
    NextParam(t, 16);
    NextParam(t, 17);
    params := before;
    if t.listenType == "TCP" {
      params := params + [TextOf(Entry(NoTcp, "0"))];
      params := params + [TextOf(Entry(NoUdp, "1"))];
    } else if t.listenType == "UDP" {
      params := params + [TextOf(Entry(NoTcp, "1"))];
      params := params + [TextOf(Entry(NoUdp, "0"))];
    } else if t.listenType == "ALL" {
      params := params + [TextOf(Entry(NoTcp, "0"))];
      params := params + [TextOf(Entry(NoUdp, "0"))];
    }
  }

  method PrintParameters(t: TunnelConfig) returns (params: seq<string>)
    ensures params == Texts(Listed(CONFIG_ORDER, PrintedByConfig(t)))
  {
    assert CONFIG_ORDER[..18] == CONFIG_ORDER;
    assert FirstParams(t, 18) == Texts(Listed(CONFIG_ORDER, PrintedByConfig(t)));
    hide FirstParams;
    params := PrintModes(t);
    params := PrintBounds(t, params);
    params := PrintLimits(t, params);
    params := PrintRoutes(t, params);
    params := PrintListenType(t, params);
  }

  method AppendTargets(t: TunnelConfig, before: seq<string>) returns (parts: seq<string>)
    ensures Code.Concat(parts) == Code.Concat(before) + Tail('/', ConfigPath(t))
  {
    hide Code.Concat, Print, Join;
    parts := before;
    if t.target.host != "" || t.target.port != "" || |t.extra| > 0 {
      Code.ConcatAppend(parts, "/");
      parts := Code.AppendAddress(t.target, parts + ["/"]);
      parts := Code.AppendExtra(Code.Concat(before) + "/", Print(t.target), t.extra, parts);
    }
  }

  lemma {:induction false} ListedTexts(t: TunnelConfig, params: seq<string>)
    requires params == Texts(Listed(CONFIG_ORDER, PrintedByConfig(t)))
    ensures ConfigQuery(t) == if params == [] then None else Some(Join(params, '&'))
  {
    hide Listed, Join, TextOf;
  }

  method AppendQuery(t: TunnelConfig, before: seq<string>) returns (parts: seq<string>)
    ensures Code.Concat(parts) == Code.Concat(before) + Tail('?', ConfigQuery(t))
  {
    hide Listed, Texts, Code.Concat, PrintedByConfig, Join;
    parts := before;
    var params := PrintParameters(t);
    ListedTexts(t, params);
    hide ConfigQuery;
    if |params| > 0 {
      Code.ConcatAppend(parts, "?" + Join(params, '&'));
      parts := parts + ["?" + Join(params, '&')];
    }
  }

  /** `BuildTunnelConfigURL`. */
  method BuildTunnelConfigURL(t: TunnelConfig) returns (url: string)
    ensures url == BuildConfigUrl(t)
  {
    hide Listed, Texts, Print, ConfigPath, Code.Concat, PrintedByConfig, Join, ConfigQuery, Tail;
    var protocol := if t.kind == "" then "client" else t.kind;
    var urlParts := [protocol + "://"];
    Code.ConcatOne(protocol + "://");
    if t.password != "" {
      Code.ConcatAppend(urlParts, t.password + "@");
      urlParts := urlParts + [t.password + "@"];
    }
    ghost var front := protocol + "://" + PasswordPart(Some(t.password));
    assert Code.Concat(urlParts) == front;
    urlParts := Code.AppendAddress(t.tunnel, urlParts);
    urlParts := AppendTargets(t, urlParts);
    urlParts := AppendQuery(t, urlParts);
    url := Code.Concat(urlParts);
    Code.Regroup(front, Print(t.tunnel), Tail('/', ConfigPath(t)), Tail('?', ConfigQuery(t)));
  }
}
