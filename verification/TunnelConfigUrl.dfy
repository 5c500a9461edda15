/** The second printer, `BuildTunnelConfigURL`, which appends its parameters in another order. */
module TunnelConfigUrl {
  import opened Wrappers
  import opened Text
  import opened HostPort
  import opened TunnelOptions
  import opened TunnelUrl
  import QueryEscape

  /** The source's `TunnelConfig`: every field is text, and empty means unset. */
  datatype TunnelConfig = TunnelConfig(
    kind: string, password: string, tunnel: Address, target: Address, extra: seq<string>,
    listenType: string, tlsMode: string, logLevel: string, certPath: string, keyPath: string,
    min: string, max: string, mode: string, read: string, rate: string, slot: string, proxy: string,
    poolType: string, dial: string, dns: string, sni: string, block: string)

  const CONFIG_ORDER: seq<Key> :=
    [Log, Tls, Crt, KeyFile, Min, Max, Mode, Read, Rate, Slot, Proxy, Pool, Dial, Dns, Sni, Block, NoTcp, NoUdp]

  function Given(s: string): Option<string> {
    NonEmpty(Some(s))
  }

  function PrintedConfig(t: TunnelConfig, k: Key): Option<string> {
    match k
    case Log => Given(t.logLevel)
    case Tls => if t.kind == "server" then Given(t.tlsMode) else None
    case Crt => Escaped(Given(t.certPath))
    case KeyFile => Escaped(Given(t.keyPath))
    case Min => Given(t.min)
    case Max => Given(t.max)
    case Mode => Given(t.mode)
    case Read => Given(t.read)
    case Rate => Given(t.rate)
    case Slot => Given(t.slot)
    case Proxy => Given(t.proxy)
    case Pool => Given(t.poolType)
    case Dial => Escaped(Given(t.dial))
    case Dns => Given(t.dns)
    case Sni => Given(t.sni)
    case Block => Given(t.block)
    case NoTcp => Disabled(Given(t.listenType), "UDP")
    case NoUdp => Disabled(Given(t.listenType), "TCP")
    case Unknown => None
  }

  function PrintedByConfig(t: TunnelConfig): Key -> Option<string> {
    k => PrintedConfig(t, k)
  }

  function ConfigPath(t: TunnelConfig): Option<string> {
    if t.target == Address("", "") && t.extra == [] then None
    else Some(Join([Print(t.target)] + t.extra, ','))
  }

  function ConfigQuery(t: TunnelConfig): Option<string> {
    if Listed(CONFIG_ORDER, PrintedByConfig(t)) == [] then None else Some(QueryOf(CONFIG_ORDER, PrintedByConfig(t)))
  }

  function BuildConfigUrl(t: TunnelConfig): string {
    (if t.kind == "" then "client" else t.kind) + "://" + PasswordPart(Some(t.password)) +
    PrintBody(Print(t.tunnel), ConfigPath(t), ConfigQuery(t))
  }

  function Shown(n: Option<int>): string {
    OrEmpty(Number(n))
  }

  /** The corresponding field values: numbers in decimal, unset fields empty. */
  function FromConfig(c: Config): TunnelConfig {
    var o := c.options;
    TunnelConfig(c.kind, OrEmpty(c.password), c.tunnel, c.target, Extra(c),
                 OrEmpty(o.listenType), o.tlsMode, o.logLevel, OrEmpty(o.certPath), OrEmpty(o.keyPath),
                 Shown(o.min), Shown(o.max), Shown(o.mode), OrEmpty(o.read), Shown(o.rate), Shown(o.slot),
                 OrEmpty(Switch(o.proxy)), Shown(o.poolType), OrEmpty(o.dial), OrEmpty(o.dns), OrEmpty(o.sni),
                 Shown(o.block))
  }

  function ConfigPosition(k: Key): int {
    match k
    case Log => 0 case Tls => 1 case Crt => 2 case KeyFile => 3 case Min => 4 case Max => 5 case Mode => 6
    case Read => 7 case Rate => 8 case Slot => 9 case Proxy => 10 case Pool => 11 case Dial => 12 case Dns => 13
    case Sni => 14 case Block => 15 case NoTcp => 16 case NoUdp => 17 case Unknown => -1
  }

  lemma ConfigPositions()
    ensures |CONFIG_ORDER| == 18 && forall i :: 0 <= i < 18 ==> ConfigPosition(CONFIG_ORDER[i]) == i
  {
    forall i | 0 <= i < 18 ensures ConfigPosition(CONFIG_ORDER[i]) == i {
      assert i <= 5 || i == 6 || i == 7 || i == 8 || i == 9 || i == 10 || i == 11 || i == 12 || i >= 13;
    }
  }

  lemma ConfigPositionIsInjective(j: Key, k: Key)
    ensures ConfigPosition(j) == ConfigPosition(k) <==> j == k
    ensures -1 <= ConfigPosition(k) < 18
  {
  }

  lemma ConfigOrderIsComplete()
    ensures NoDuplicates(CONFIG_ORDER) && Unknown !in CONFIG_ORDER
    ensures forall k :: k != Unknown ==> k in CONFIG_ORDER
  {
    ConfigPositions();
    var order := CONFIG_ORDER;
    assert ConfigPosition(Unknown) == -1;
    hide ConfigPosition;
    forall k | k != Unknown ensures k in order {
      ConfigPositionIsInjective(k, Unknown);
      ConfigPositionIsInjective(k, order[ConfigPosition(k)]);
    }
  }

  lemma TextGiven(s: Option<string>)
    ensures Given(OrEmpty(s)) == NonEmpty(s)
    ensures NonEmpty(s) == if s == Some("") then None else s
  {
  }

  lemma NumberGiven(n: Option<int>)
    ensures Given(Shown(n)) == Number(n)
  {
  }

  lemma SwitchGiven(b: Option<bool>)
    ensures Given(OrEmpty(Switch(b))) == Switch(b)
  {
  }

  lemma SameNumbers(c: Config, k: Key)
    requires k in {Min, Max, Mode, Rate, Slot, Pool, Block, Proxy}
    ensures PrintedConfig(FromConfig(c), k) == Printed(c.kind, c.options, k)
  {
    hide Given, Shown, Number, OrEmpty, NonEmpty, Switch, Escaped, Disabled;
    var o := c.options;
    NumberGiven(o.min);
    NumberGiven(o.max);
    NumberGiven(o.mode);
    NumberGiven(o.rate);
    NumberGiven(o.slot);
    NumberGiven(o.poolType);
    NumberGiven(o.block);
    SwitchGiven(o.proxy);
  }

  lemma SameTexts(c: Config, k: Key)
    requires k in {Log, Tls, Crt, KeyFile, Read, Sni, Unknown}
    ensures PrintedConfig(FromConfig(c), k) == Printed(c.kind, c.options, k)
  {
    hide Shown, Number, OrEmpty, NonEmpty, Switch, Escaped, Disabled;
    var o := c.options;
    TextGiven(o.certPath);
    TextGiven(o.keyPath);
    TextGiven(o.read);
    TextGiven(o.sni);
  }

  /** An empty dial or dns is not written; an empty listen type is none. */
  lemma SameRoutes(c: Config, k: Key)
    requires k in {Dial, Dns, NoTcp, NoUdp}
    ensures PrintedConfig(FromConfig(c), k) ==
            if (k == Dial && c.options.dial == Some("")) || (k == Dns && c.options.dns == Some("")) then None
            else Printed(c.kind, c.options, k)
  {
    hide Shown, Number, OrEmpty, NonEmpty, Switch, Given, QueryEscape.Escape;
    TextGiven(c.options.dial);
    TextGiven(c.options.dns);
    TextGiven(c.options.listenType);
  }

  /** Both printers write the same value for every parameter, except that an empty dial or dns is not written here. */
  lemma SamePrinted(c: Config, k: Key)
    ensures PrintedConfig(FromConfig(c), k) ==
            if (k == Dial && c.options.dial == Some("")) || (k == Dns && c.options.dns == Some("")) then None
            else Printed(c.kind, c.options, k)
  {
    hide PrintedConfig, Printed, FromConfig;
    if k in {Min, Max, Mode, Rate, Slot, Pool, Block, Proxy} {
      SameNumbers(c, k);
    } else if k in {Dial, Dns, NoTcp, NoUdp} {
      SameRoutes(c, k);
    } else {
      SameTexts(c, k);
    }
  }

  lemma ConfigQueryHas(c: Config)
    requires WellFormed(c) && '@' in OrEmpty(ConfigQuery(FromConfig(c)))
    ensures !AtFree(c)
  {
    hide Listed, TextOf, Printed, PrintedConfig, FromConfig, AtFree, WellFormed;
    var f := PrintedByConfig(FromConfig(c));
    var es := Listed(CONFIG_ORDER, f);
    ConfigOrderIsComplete();
    ListedFacts(CONFIG_ORDER, f);
    TextsHaveAt(es);
    var e :| e in es && '@' in e.val;
    SamePrinted(c, e.key);
    assert e.key in CONFIG_ORDER && f(e.key) == Some(e.val);
    PrintedAtBreaks(c, e.key);
  }

  lemma PrintedAtBreaks(c: Config, k: Key)
    requires WellFormed(c) && Printed(c.kind, c.options, k).Some? && '@' in Printed(c.kind, c.options, k).value
    ensures !AtFree(c)
  {
    hide SeparatorFree, Separable, IsHostPort;
    PrintedHas(c.kind, c.options, k, '@');
    hide Printed;
  }

  /** What the parser makes of the second printer's URL. */
  lemma ConfigSectionsRead(c: Config)
    requires WellFormed(c)
    ensures ParseConfig(BuildConfigUrl(FromConfig(c))) ==
            c.(options := ReadOptions(c.kind, OrEmpty(ConfigQuery(FromConfig(c)))))
  {
    hide ReadKind, ReadPassword, ReadBody, ReadPath, ReadOptions, ParseAddressPort, ConfigQuery, Separable, IsHostPort,
         OptionsOk;
    var t := FromConfig(c);
    assert ConfigPath(t) == PathOf(c);
    var text := PrintBody(Print(c.tunnel), PathOf(c), ConfigQuery(t));
    assert PasswordPart(Some(t.password)) == PasswordPart(c.password);
    if c.password.None? {
      BodyAt(c, ConfigQuery(t));
    }
    hide PathOf, PasswordPart, PrintBody;
    KindReads(c.kind, PasswordPart(c.password) + text);
    assert BuildConfigUrl(t) == c.kind + "://" + (PasswordPart(c.password) + text);
    PasswordReads(c.password, text);
    PrintHas(c.tunnel, '/');
    PrintHas(c.tunnel, '?');
    PathHas(c, '?');
    BodyReads(Print(c.tunnel), PathOf(c), ConfigQuery(t));
    Exact(c.tunnel);
    PathExact(c);
  }

  lemma BodyAt(c: Config, query: Option<string>)
    requires WellFormed(c) && AtFree(c) && query == ConfigQuery(FromConfig(c))
    ensures '@' !in PrintBody(Print(c.tunnel), PathOf(c), query)
  {
    hide PathOf, ConfigQuery, FromConfig, Print, Separable, IsHostPort, OptionsOk, SeparatorFree;
    PrintHas(c.tunnel, '@');
    PathHas(c, '@');
    if '@' in OrEmpty(query) {
      ConfigQueryHas(c);
    }
  }

  /** The two printers' URLs parse to the same tunnel exactly when neither dial nor dns is set but empty. */
  lemma PrintersAgree(c: Config)
    requires GoOptions(c.options) && WellFormed(c)
    ensures ParseConfig(BuildConfigUrl(FromConfig(c))) == ParseConfig(BuildUrl(c)) <==>
            c.options.dial != Some("") && c.options.dns != Some("")
  {
    hide ParseConfig, BuildUrl, BuildConfigUrl, ReadOptions, GoOptions, Separable, IsHostPort, SeparatorFree, AtFree;
    RoundTrip(c);
    ConfigSectionsRead(c);
    ConfigQueryReads(c);
    var f := PrintedByConfig(FromConfig(c));
    SamePrinted(c, Dial);
    SamePrinted(c, Dns);
    if c.options.dial != Some("") && c.options.dns != Some("") {
      forall k ensures f(k) == Printed(c.kind, c.options, k) {
        SamePrinted(c, k);
      }
      hide Printed, PrintedConfig, FromValues, FromConfig;
      FieldsExact(c.kind, c.options, f);
    }
  }

  lemma ConfigQueryReads(c: Config)
    requires WellFormed(c)
    ensures ReadOptions(c.kind, OrEmpty(ConfigQuery(FromConfig(c)))) ==
            Finish(FromValues(c.kind, PrintedByConfig(FromConfig(c))))
  {
    hide ReadOptions, FromValues, Finish, Listed, Printed, PrintedConfig, FromConfig, Separable, IsHostPort, AtFree;
    var f := PrintedByConfig(FromConfig(c));
    ConfigOrderIsComplete();
    forall k | k in CONFIG_ORDER && f(k).Some? ensures '&' !in f(k).value {
      SamePrinted(c, k);
      if '&' in f(k).value {
        PrintedHas(c.kind, c.options, k, '&');
      }
    }
    SamePrinted(c, Unknown);
    assert Printed(c.kind, c.options, Unknown).None? by { PrintedUnknown(c.kind, c.options); }
    ReadListed(c.kind, CONFIG_ORDER, f);
    assert Join(Texts([]), '&') == "";
  }

  lemma PrintedUnknown(kind: string, o: Options)
    ensures Printed(kind, o, Unknown).None?
  {
  }
}
