/**
 The tunnel URL language of internal/nodepass/parse.go,
 `type://password@addr:port/target:port,extra…?parameters`: the parser, the printer `BuildTunnelURLs`,
 and the exact condition under which parsing undoes printing.
 */
module TunnelUrl {
  import opened Wrappers
  import opened Text
  import opened HostPort
  import opened TunnelOptions

  /** The configuration fields of `models.Tunnel`. */
  datatype Config = Config(
    kind: string, password: Option<string>, tunnel: Address, target: Address,
    extend: Option<seq<string>>, options: Options)

  datatype Tunnel = Tunnel(config: Config, commandLine: string, status: string)

  // ---------------------------------------------------------------- parsing

  /** The text after the scheme, cut at its first '?' and then at its first '/'. */
  datatype Body = Body(host: string, path: string, query: string)

  function ReadBody(text: string): Body {
    var q := CutAt(text, '?');
    var h := CutAt(q.before, '/');
    Body(h.before, h.after, q.after)
  }

  function KindOf(protocol: string): string {
    if protocol == "client" || protocol == "server" then protocol else ""
  }

  /** The scheme's tunnel type and the text behind "://". */
  function ReadKind(raw: string): (string, string) {
    var i := IndexOfText(raw, "://");
    if i == -1 then ("", raw) else (KindOf(raw[..i]), raw[i + 3..])
  }

  /** The text before the first '@', when it is not empty, and the text behind it. */
  function ReadPassword(text: string): (Option<string>, string) {
    var user := CutAt(text, '@');
    if user.found then (NonEmpty(Some(user.before)), user.after) else (None, text)
  }

  function Reprints(parts: seq<string>): (es: seq<string>)
    ensures |es| == |parts| && forall i :: 0 <= i < |parts| ==> es[i] == Reprint(parts[i])
  {
    seq(|parts|, i requires 0 <= i < |parts| => Reprint(parts[i]))
  }

  /** The first target and the others, separated by commas; an empty path is one empty address. */
  function ReadPath(path: string): (Address, Option<seq<string>>) {
    var parts := Split(path, ',');
    (ParseAddressPort(parts[0]), if |parts| > 1 then Some(Reprints(parts[1..])) else None)
  }

  function ParseConfig(raw: string): Config {
    var (kind, rest) := ReadKind(raw);
    var (password, text) := ReadPassword(rest);
    var body := ReadBody(text);
    var (target, extend) := ReadPath(body.path);
    Config(kind, password, ParseAddressPort(body.host), target, extend, ReadOptions(kind, body.query))
  }

  function ParseUrl(raw: string): Tunnel {
    Tunnel(ParseConfig(raw), raw, "stopped")
  }

  // --------------------------------------------------------------- printing

  function Extra(c: Config): seq<string> {
    if c.extend.Some? then c.extend.value else []
  }

  /** The path behind '/', printed only when there is a target or an extra target. */
  function PathOf(c: Config): Option<string> {
    if c.target == Address("", "") && Extra(c) == [] then None
    else Some(Join([Print(c.target)] + Extra(c), ','))
  }

  function PrintedBy(c: Config): Key -> Option<string> {
    k => Printed(c.kind, c.options, k)
  }

  function QueryPart(c: Config): Option<string> {
    if Listed(URL_ORDER, PrintedBy(c)) == [] then None else Some(QueryOf(URL_ORDER, PrintedBy(c)))
  }

  /** A separator and the text behind it, or nothing. */
  function Tail(c: char, s: Option<string>): string {
    if s.Some? then [c] + s.value else ""
  }

  function PrintBody(host: string, path: Option<string>, query: Option<string>): string {
    host + Tail('/', path) + Tail('?', query)
  }

  function PasswordPart(password: Option<string>): string {
    if NonEmpty(password).Some? then password.value + "@" else ""
  }

  function BuildUrl(c: Config): string {
    (if c.kind == "" then "client" else c.kind) + "://" + PasswordPart(c.password) +
    PrintBody(Print(c.tunnel), PathOf(c), QueryPart(c))
  }

  // -------------------------------------------------------- well-formedness

  /** No text that is printed raw holds an '@'. */
  predicate AtFree(c: Config) {
    && Lacks(c.tunnel, '@') && Lacks(c.target, '@')
    && (forall e :: e in Extra(c) ==> '@' !in e)
    && (c.options.read.Some? ==> '@' !in c.options.read.value)
    && (c.options.dns.Some? ==> '@' !in c.options.dns.value)
    && (c.options.sni.Some? ==> '@' !in c.options.sni.value)
  }

  predicate Lacks(a: Address, c: char) {
    c !in a.host && c !in a.port
  }

  /** The addresses hold no separator of the URL's outer structure. */
  predicate SeparatorFree(c: Config) {
    && Lacks(c.tunnel, '/') && Lacks(c.tunnel, '?') && Lacks(c.target, ',') && Lacks(c.target, '?')
    && (forall e :: e in Extra(c) ==> ',' !in e && '?' !in e)
    && AmpersandFree(c.options)
  }

  /**
   What a caller can check field by field before printing: a known type; a non-empty, '@'-free
   password, or no password and no '@' anywhere; separator-free addresses that the address parser
   splits where they were joined; host:port extra targets; option values in range.
   */
  predicate WellFormed(c: Config) {
    && c.kind in {"client", "server"}
    && (c.password.Some? ==> c.password.value != "" && '@' !in c.password.value)
    && (c.password.None? ==> AtFree(c))
    && SeparatorFree(c)
    && Separable(c.tunnel) && Separable(c.target)
    && c.extend != Some([]) && (forall e :: e in Extra(c) ==> IsHostPort(e))
    && OptionsOk(c.kind, c.options)
  }

  /** A question mark is printed exactly when some option is. */
  lemma QuestionMarkExactly(c: Config)
    requires '?' !in c.kind && (c.password.Some? ==> '?' !in c.password.value) && '?' !in Print(c.tunnel)
    requires PathOf(c).Some? ==> '?' !in PathOf(c).value
    ensures '?' in BuildUrl(c) <==> exists k :: k in URL_ORDER && PrintedBy(c)(k).Some?
  {
    ListedNone(URL_ORDER, PrintedBy(c));
    hide PathOf, PrintedBy, Listed, QueryOf, Print;
    assert BuildUrl(c) == ((if c.kind == "" then "client" else c.kind) + "://" + PasswordPart(c.password) +
                           Print(c.tunnel) + Tail('/', PathOf(c))) + Tail('?', QueryPart(c));
  }

  lemma {:induction false} ListedNone(keys: seq<Key>, f: Key -> Option<string>)
    ensures Listed(keys, f) == [] <==> forall k :: k in keys ==> f(k).None?
  {
    if keys != [] {
      var front, last := keys[..|keys| - 1], keys[|keys| - 1];
      assert keys == front + [last];
      ListedNone(front, f);
    }
  }

  // ------------------------------------------------ each section separately

  lemma KindReads(protocol: string, rest: string)
    requires protocol == "client" || protocol == "server"
    ensures ReadKind(protocol + "://" + rest) == (protocol, rest)
  {
    var raw := protocol + "://" + rest;
    assert raw[6..] == "://" + rest;
    assert forall k :: 0 <= k < 6 ==> raw[k] == protocol[k] && protocol[k] != ':';
    var i := IndexOfText(raw, "://");
    assert i >= 0 && i <= 6;
    assert raw[i] == raw[i..][0] == ':';
    assert raw[..6] == protocol && raw[9..] == rest;
  }

  /** A scheme other than the two is dropped, and leaves no type. */
  lemma OtherKindReads(protocol: string, rest: string)
    requires ':' !in protocol && protocol != "client" && protocol != "server"
    ensures ReadKind(protocol + "://" + rest) == ("", rest)
  {
    hide IndexOfText;
    var raw := protocol + "://" + rest;
    assert raw[|protocol|..] == "://" + rest;
    forall k | 0 <= k < |protocol| ensures !("://" <= raw[k..]) {
      assert raw[k..][0] == protocol[k] && protocol[k] in protocol;
    }
    assert IndexOfText(raw, "://") == |protocol|;
    assert raw[..|protocol|] == protocol && raw[|protocol| + 3..] == rest;
  }

  /** A text without a scheme is read on as it is. */
  lemma NoKindReads(raw: string)
    requires ':' !in raw
    ensures ReadKind(raw) == ("", raw)
  {
    hide IndexOfText;
    forall k | 0 <= k < |raw| ensures !("://" <= raw[k..]) {
      assert raw[k..][0] == raw[k] && raw[k] in raw;
    }
  }

  /** An empty password is none, and the text goes on behind its '@'. */
  lemma EmptyPasswordReads(text: string)
    ensures ReadPassword("@" + text) == (None, text)
  {
    CutOfConcat("", '@', text);
    assert "" + ['@'] + text == "@" + text;
  }

  lemma PasswordReads(password: Option<string>, text: string)
    requires password.Some? ==> password.value != "" && '@' !in password.value
    requires password.None? ==> '@' !in text
    ensures ReadPassword(PasswordPart(password) + text) == (password, text)
  {
    if password.Some? {
      CutOfConcat(password.value, '@', text);
      assert password.value + ['@'] + text == password.value + "@" + text;
    } else {
      assert "" + text == text;
    }
  }

  function OrEmpty(s: Option<string>): string {
    if s.Some? then s.value else ""
  }

  lemma CutOfTail(a: string, c: char, s: Option<string>)
    requires c !in a
    ensures CutAt(a + Tail(c, s), c) == Halves(a, OrEmpty(s), s.Some?)
  {
    if s.Some? {
      CutOfConcat(a, c, s.value);
      assert a + [c] + s.value == a + ([c] + s.value);
    } else {
      assert a + "" == a;
    }
  }

  lemma BodyReads(host: string, path: Option<string>, query: Option<string>)
    requires '/' !in host && '?' !in host && '?' !in OrEmpty(path)
    ensures ReadBody(PrintBody(host, path, query)) == Body(host, OrEmpty(path), OrEmpty(query))
  {
    CutOfTail(host + Tail('/', path), '?', query);
    CutOfTail(host, '/', path);
  }

  lemma ReprintsExact(es: seq<string>)
    ensures Reprints(es) == es <==> forall e :: e in es ==> IsHostPort(e)
  {
    hide Reprint, IsHostPort;
    forall i | 0 <= i < |es| ensures Reprint(es[i]) == es[i] <==> IsHostPort(es[i]) {
      ReprintExact(es[i]);
    }
    if Reprints(es) == es {
      forall e | e in es ensures IsHostPort(e) {
        var i :| 0 <= i < |es| && es[i] == e;
        assert Reprints(es)[i] == es[i];
      }
    }
  }

  lemma PrintHas(a: Address, c: char)
    ensures c in Print(a) <==> c in a.host || c in a.port || (c == ':' && a.port != "")
  {
    assert a.port != "" ==> (":" + a.port)[0] == ':' && forall i :: 0 <= i < |a.port| ==>
           (":" + a.port)[i + 1] == a.port[i];
  }

  lemma PrintOfEmpty()
    ensures Print(Address("", "")) == ""
  {
  }

  /** The targets are read back exactly when the address is separable and the others are host:port texts. */
  lemma PathExact(c: Config)
    requires Lacks(c.target, ',') && forall e :: e in Extra(c) ==> ',' !in e
    ensures ReadPath(OrEmpty(PathOf(c))) == (c.target, c.extend) <==>
            Separable(c.target) && c.extend != Some([]) && (forall e :: e in Extra(c) ==> IsHostPort(e))
  {
    hide IsHostPort, Separable, ParseAddressPort, Print, Reprint;
    var others := Extra(c);
    var parts := [Print(c.target)] + others;
    Exact(c.target);
    ReprintsExact(others);
    PrintHas(c.target, ',');
    assert forall s :: s in parts ==> s == Print(c.target) || s in others;
    if PathOf(c).None? {
      assert Split("", ',') == [""];
      PrintOfEmpty();
    } else {
      SplitOfJoin(parts, ',');
    }
    assert parts[1..] == others;
  }

  function Position(k: Key): int {
    match k
    case Log => 0 case Tls => 1 case Crt => 2 case KeyFile => 3 case Min => 4 case Max => 5 case Mode => 6
    case Read => 7 case Rate => 8 case Slot => 9 case Dial => 10 case Dns => 11 case Pool => 12 case Sni => 13
    case Block => 14 case Proxy => 15 case NoTcp => 16 case NoUdp => 17 case Unknown => -1
  }

  lemma OrderPositions()
    ensures |URL_ORDER| == 18 && forall i :: 0 <= i < 18 ==> Position(URL_ORDER[i]) == i
  {
    forall i | 0 <= i < 18 ensures Position(URL_ORDER[i]) == i {
      assert i <= 5 || i == 6 || i == 7 || i == 8 || i == 9 || i == 10 || i == 11 || i == 12 || i >= 13;
    }
  }

  lemma PositionIsInjective(j: Key, k: Key)
    ensures Position(j) == Position(k) <==> j == k
    ensures -1 <= Position(k) < 18
  {
  }

  /** The printed order names every parameter once. */
  lemma OrderIsComplete()
    ensures NoDuplicates(URL_ORDER) && Unknown !in URL_ORDER
    ensures forall k :: k != Unknown ==> k in URL_ORDER
  {
    OrderPositions();
    var order := URL_ORDER;
    assert Position(Unknown) == -1;
    hide Position;
    forall k | k != Unknown ensures k in order {
      PositionIsInjective(k, Unknown);
      PositionIsInjective(k, order[Position(k)]);
    }
  }

  /** The parameters are read back exactly when the option values are in range. */
  lemma QueryExact(c: Config)
    requires GoOptions(c.options) && AmpersandFree(c.options)
    ensures ReadOptions(c.kind, OrEmpty(QueryPart(c))) == c.options <==> OptionsOk(c.kind, c.options)
  {
    hide ReadOptions, FromValues, Finish, GoOptions, OptionsOk, Listed;
    var f := PrintedBy(c);
    OrderIsComplete();
    forall k | k in URL_ORDER && f(k).Some? ensures '&' !in f(k).value {
      if '&' in f(k).value {
        PrintedHas(c.kind, c.options, k, '&');
      }
    }
    hide Printed;
    ReadListed(c.kind, URL_ORDER, f);
    FieldsExact(c.kind, c.options, f);
    assert Join(Texts([]), '&') == "";
  }

  // -------------------------------------------- what every parse result has

  lemma ReprintKeeps(part: string, c: char)
    requires c !in part && c != ':'
    ensures c !in Reprint(part)
  {
    hide ParseAddressPort;
    ParseKeeps(part, c);
  }

  lemma PathKeeps(path: string, c: char)
    requires c !in path && c != ':'
    ensures var (a, es) := ReadPath(path);
            Lacks(a, c) && (es.Some? ==> forall e :: e in es.value ==> c !in e)
  {
    hide ParseAddressPort, Reprint;
    SplitHas(path, ',', c);
    var parts := Split(path, ',');
    ParseKeeps(parts[0], c);
    forall i | 1 <= i < |parts| ensures c !in Reprint(parts[i]) {
      ReprintKeeps(parts[i], c);
    }
  }

  lemma CommasGone(path: string)
    ensures var (a, es) := ReadPath(path);
            && Lacks(a, ',')
            && (es.Some? ==> es.value != [] && forall e :: e in es.value ==> ',' !in e)
  {
    hide ParseAddressPort, Reprint;
    var parts := Split(path, ',');
    ParseKeeps(parts[0], ',');
    forall i | 1 <= i < |parts| ensures ',' !in Reprint(parts[i]) {
      ReprintKeeps(parts[i], ',');
    }
  }

  predicate ScannedOk(o: Options) {
    && AmpersandFree(o) && o.tlsMode in {"", "0", "1", "2"}
    && o.logLevel in {"", "debug", "info", "warn", "error", "event", "none"}
  }

  lemma SetKeeps(kind: string, s: Scan, k: Key, val: string)
    requires ScannedOk(s.o) && '&' !in val
    ensures ScannedOk(SetParam(kind, s, k, val).o)
  {
    hide Decoded, Ranged, Flag, ToLower;
  }

  lemma {:induction false} ScanKeeps(kind: string, pieces: seq<string>)
    requires forall p :: p in pieces ==> '&' !in p
    ensures ScannedOk(ScanPieces(kind, pieces).o)
  {
    if pieces != [] {
      var front, piece := pieces[..|pieces| - 1], pieces[|pieces| - 1];
      ScanKeeps(kind, front);
      hide ScannedOk, SetParam, KeyOf;
      var kv := CutAt(piece, '=');
      if kv.found {
        assert '&' !in piece && '&' !in kv.after;
        SetKeeps(kind, ScanPieces(kind, front), KeyOf(kv.before), kv.after);
      }
    }
  }

  lemma ParsedOptionsOk(kind: string, query: string)
    ensures ScannedOk(ReadOptions(kind, query))
  {
    hide ScanPieces;
    ScanKeeps(kind, Split(query, '&'));
  }

  lemma ParsedAddressesOk(text: string)
    ensures var body := ReadBody(text);
            var a := ParseAddressPort(body.host);
            var (target, extend) := ReadPath(body.path);
            && Lacks(a, '/') && Lacks(a, '?') && Lacks(target, ',') && Lacks(target, '?')
            && (extend.Some? ==> extend.value != [] && forall e :: e in extend.value ==> ',' !in e && '?' !in e)
  {
    hide ParseAddressPort, ReadPath;
    var body := ReadBody(text);
    ParseKeeps(body.host, '/');
    ParseKeeps(body.host, '?');
    PathKeeps(body.path, '?');
    CommasGone(body.path);
  }

  /** Whatever the input, the parser's fields never hold the separators that delimit them. */
  lemma ParsedIsSeparatorFree(raw: string)
    ensures SeparatorFree(ParseConfig(raw)) && ScannedOk(ParseConfig(raw).options)
    ensures var c := ParseConfig(raw);
            && c.kind in {"", "client", "server"}
            && (c.password.Some? ==> c.password.value != "" && '@' !in c.password.value)
  {
    hide ParseAddressPort, ReadPath, ReadOptions, ReadBody, Lacks;
    var (kind, rest) := ReadKind(raw);
    var (password, text) := ReadPassword(rest);
    ParsedAddressesOk(text);
    ParsedOptionsOk(kind, ReadBody(text).query);
  }

  // ---------------------------------------------------------- the round trip

  function BodyText(c: Config): string {
    PrintBody(Print(c.tunnel), PathOf(c), QueryPart(c))
  }

  lemma PathHas(c: Config, d: char)
    requires d != ',' && d != ':'
    ensures d in OrEmpty(PathOf(c)) <==> !Lacks(c.target, d) || exists e :: e in Extra(c) && d in e
  {
    hide Print;
    var others := Extra(c);
    var parts := [Print(c.target)] + others;
    PrintHas(c.target, d);
    JoinHas(parts, ',', d);
    if e :| e in others && d in e {
      var i :| 0 <= i < |others| && others[i] == e;
      assert parts[i + 1] == e;
    }
    if i :| 0 <= i < |parts| && d in parts[i] {
      assert i > 0 ==> parts[i] == others[i - 1];
    }
    assert parts[0] == Print(c.target);
  }

  predicate QueryHasAt(o: Options) {
    || (o.read.Some? && '@' in o.read.value) || (o.dns.Some? && '@' in o.dns.value) ||
       (o.sni.Some? && '@' in o.sni.value)
  }

  lemma TextHasAt(e: Entry)
    ensures '@' in TextOf(e) <==> '@' in e.val
  {
    NamesArePlain(e.key, '@');
    hide NameOf;
  }

  lemma TextsHaveAt(es: seq<Entry>)
    ensures '@' in Join(Texts(es), '&') <==> exists e :: e in es && '@' in e.val
  {
    hide TextOf;
    JoinHas(Texts(es), '&', '@');
    forall i | 0 <= i < |es| ensures '@' in Texts(es)[i] <==> '@' in es[i].val {
      TextHasAt(es[i]);
    }
    if e :| e in es && '@' in e.val {
      var i :| 0 <= i < |es| && es[i] == e;
      assert '@' in Texts(es)[i];
    }
    if i :| 0 <= i < |es| && '@' in Texts(es)[i] {
      assert es[i] in es;
    }
  }

  /** Only read, dns and sni are printed raw, so only they can bring an '@' into the query. */
  lemma PrintedAt(kind: string, o: Options)
    requires ScannedOk(o)
    ensures QueryHasAt(o) <==> exists k :: k != Unknown && Printed(kind, o, k).Some? && '@' in Printed(kind, o, k).value
  {
    if k :| Printed(kind, o, k).Some? && '@' in Printed(kind, o, k).value {
      PrintedHas(kind, o, k, '@');
      hide Printed;
    }
    if QueryHasAt(o) {
      var k := if o.read.Some? && '@' in o.read.value then Read
               else if o.dns.Some? && '@' in o.dns.value then Dns else Sni;
      assert Printed(kind, o, k).Some? && '@' in Printed(kind, o, k).value;
    }
  }

  lemma QueryHas(c: Config)
    requires ScannedOk(c.options)
    ensures '@' in OrEmpty(QueryPart(c)) <==> QueryHasAt(c.options)
  {
    hide Listed, TextOf, QueryHasAt, Printed, ScannedOk;
    var f := PrintedBy(c);
    var es := Listed(URL_ORDER, f);
    OrderIsComplete();
    ListedFacts(URL_ORDER, f);
    TextsHaveAt(es);
    PrintedAt(c.kind, c.options);
    if k :| k != Unknown && Printed(c.kind, c.options, k).Some? && '@' in Printed(c.kind, c.options, k).value {
      assert f(k) == Printed(c.kind, c.options, k);
      assert Entry(k, f(k).value) in es;
    }
    if e :| e in es && '@' in e.val {
      assert e.key != Unknown && Printed(c.kind, c.options, e.key) == Some(e.val);
    }
  }

  lemma BodyHasAt(c: Config)
    requires ScannedOk(c.options)
    ensures '@' in BodyText(c) <==> !AtFree(c)
  {
    hide Print, PathOf, QueryPart, QueryOf;
    PrintHas(c.tunnel, '@');
    PathHas(c, '@');
    QueryHas(c);
  }

  /** With every delimiter where it belongs, each section is read on its own. */
  lemma SectionsRead(c: Config)
    requires c.kind in {"client", "server"} && SeparatorFree(c)
    requires c.password.Some? ==> c.password.value != "" && '@' !in c.password.value
    requires c.password.None? ==> '@' !in BodyText(c)
    ensures ParseConfig(BuildUrl(c)) ==
            Config(c.kind, c.password, ParseAddressPort(Print(c.tunnel)),
                   ReadPath(OrEmpty(PathOf(c))).0, ReadPath(OrEmpty(PathOf(c))).1,
                   ReadOptions(c.kind, OrEmpty(QueryPart(c))))
  {
    hide ReadKind, ReadPassword, ReadBody, ReadPath, ReadOptions, ParseAddressPort, PathOf, QueryPart, PasswordPart,
         PrintBody;
    var text := BodyText(c);
    KindReads(c.kind, PasswordPart(c.password) + text);
    assert BuildUrl(c) == c.kind + "://" + (PasswordPart(c.password) + text);
    PasswordReads(c.password, text);
    PrintHas(c.tunnel, '/');
    PrintHas(c.tunnel, '?');
    PathHas(c, '?');
    BodyReads(Print(c.tunnel), PathOf(c), QueryPart(c));
  }

  /** The round trip holds for every well-formed configuration. */
  lemma RoundTrip(c: Config)
    requires GoOptions(c.options) && WellFormed(c)
    ensures ParseConfig(BuildUrl(c)) == c
  {
    hide ParseConfig, BuildUrl, GoOptions, BodyText;
    BodyHasAt(c);
    SectionsRead(c);
    Exact(c.tunnel);
    PathExact(c);
    QueryExact(c);
  }

  lemma BodyStart(host: string, path: Option<string>, query: Option<string>)
    ensures var text := PrintBody(host, path, query);
            if host == "" then text == "" || text[0] == '/' || text[0] == '?'
            else text[0] == host[0] && text[1..] == PrintBody(host[1..], path, query)
  {
  }

  lemma PrintStart(a: Address)
    ensures Print(a) != "" ==> Print(a)[0] == if a.host != "" then a.host[0] else ':'
  {
  }

  /** A body that begins with '@' loses a byte, so its address cannot come back. */
  lemma LeadingAtIsLost(c: Config)
    requires SeparatorFree(c) && BodyText(c) != "" && BodyText(c)[0] == '@'
    ensures ParseAddressPort(ReadBody(BodyText(c)[1..]).host) != c.tunnel
  {
    hide ParseAddressPort, ParseTrimmed, PathOf, QueryPart, ReadBody, Print, PrintBody;
    var host := Print(c.tunnel);
    PrintHas(c.tunnel, '/');
    PrintHas(c.tunnel, '?');
    PathHas(c, '?');
    PrintStart(c.tunnel);
    BodyStart(host, PathOf(c), QueryPart(c));
    BodyReads(host[1..], PathOf(c), QueryPart(c));
    ShorterTextDiffers(host[1..], c.tunnel);
  }

  lemma ShorterTextDiffers(text: string, a: Address)
    requires a.host != "" && |text| < |Print(a)|
    ensures ParseAddressPort(text) != a
  {
    hide ParseTrimmed, Print;
    ParseShrinks(TrimSpace(text));
  }

  /** Without a password, an '@' anywhere in the body breaks the round trip. */
  lemma AtBreaks(c: Config)
    requires c.kind in {"client", "server"} && SeparatorFree(c) && c.password.None?
    requires ParseConfig(BuildUrl(c)) == c
    ensures '@' !in BodyText(c)
  {
    hide ReadKind, ReadBody, ReadPath, ReadOptions, ParseAddressPort, PathOf, QueryPart, PrintBody, SeparatorFree;
    var text := BodyText(c);
    KindReads(c.kind, text);
    assert BuildUrl(c) == c.kind + "://" + text;
    if '@' in text {
      var user := CutAt(text, '@');
      assert user.before == "";
      assert text[0] == '@' && user.after == text[1..];
      LeadingAtIsLost(c);
    }
  }

  lemma KindIsKnown(c: Config)
    requires ParseConfig(BuildUrl(c)) == c
    ensures c.kind in {"client", "server"}
  {
    hide ReadKind, ReadPassword, ReadBody, ReadPath, ReadOptions, ParseAddressPort, PathOf, QueryPart, PrintBody,
         PasswordPart;
    ParsedIsSeparatorFree(BuildUrl(c));
    if c.kind == "" {
      var rest := PasswordPart(c.password) + BodyText(c);
      KindReads("client", rest);
      assert BuildUrl(c) == "client" + "://" + rest;
    }
  }

  lemma OnlyWellFormedReturns(c: Config)
    requires GoOptions(c.options) && ParseConfig(BuildUrl(c)) == c
    ensures WellFormed(c)
  {
    hide GoOptions, BodyText, IsHostPort, Separable, OptionsOk;
    KindIsKnown(c);
    ParsedIsSeparatorFree(BuildUrl(c));
    if c.password.None? {
      AtBreaks(c);
    }
    BodyHasAt(c);
    SectionsRead(c);
    hide ParseConfig, BuildUrl, AtFree;
    Exact(c.tunnel);
    PathExact(c);
    QueryExact(c);
  }

  /** Parsing a printed tunnel returns it on every configuration field exactly when it is well formed. */
  lemma RoundTripExact(c: Config)
    requires GoOptions(c.options)
    ensures ParseConfig(BuildUrl(c)) == c <==> WellFormed(c)
  {
    hide ParseConfig, BuildUrl, WellFormed, GoOptions;
    if WellFormed(c) {
      RoundTrip(c);
    }
    if ParseConfig(BuildUrl(c)) == c {
      OnlyWellFormedReturns(c);
    }
  }

  /** Two well-formed tunnels with the same URL are the same tunnel. */
  lemma BuildIsInjective(c: Config, d: Config)
    requires GoOptions(c.options) && GoOptions(d.options) && WellFormed(c) && WellFormed(d)
    requires BuildUrl(c) == BuildUrl(d)
    ensures c == d
  {
    hide ParseConfig, BuildUrl, WellFormed, GoOptions;
    RoundTrip(c);
    RoundTrip(d);
  }
}
