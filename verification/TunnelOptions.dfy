/** The query parameters of a tunnel URL: how they are read, how they are printed, and when one undoes the other. */
module TunnelOptions {
  import opened Wrappers
  import opened Text
  import Decimal
  import QueryEscape

  /** The parameter names of the source's switch; everything else is ignored. */
  datatype Key =
    | Tls | Log | Crt | KeyFile | Min | Max | Mode | Read | Rate | Slot | Proxy
    | NoTcp | NoUdp | Dial | Dns | Pool | Sni | Block | Unknown

  function NameOf(k: Key): string {
    match k
    case Tls => "tls" case Log => "log" case Crt => "crt" case KeyFile => "key"
    case Min => "min" case Max => "max" case Mode => "mode" case Read => "read"
    case Rate => "rate" case Slot => "slot" case Proxy => "proxy" case NoTcp => "notcp"
    case NoUdp => "noudp" case Dial => "dial" case Dns => "dns" case Pool => "type"
    case Sni => "sni" case Block => "block" case Unknown => ""
  }

  function KeyOf(name: string): Key {
    if name == "tls" then Tls else if name == "log" then Log
    else if name == "crt" then Crt else if name == "key" then KeyFile
    else if name == "min" then Min else if name == "max" then Max
    else if name == "mode" then Mode else if name == "read" then Read
    else if name == "rate" then Rate else if name == "slot" then Slot
    else if name == "proxy" then Proxy else if name == "notcp" then NoTcp
    else if name == "noudp" then NoUdp else if name == "dial" then Dial
    else if name == "dns" then Dns else if name == "type" then Pool
    else if name == "sni" then Sni else if name == "block" then Block
    else Unknown
  }

  lemma KeyOfName(k: Key)
    ensures KeyOf(NameOf(k)) == k
  {
    if k != Unknown {
      var name := NameOf(k);
      var a, b, c := name[0], name[1], name[2];
    }
  }

  lemma NamesArePlain(k: Key, c: char)
    requires c == '=' || c == '&' || c == '@'
    ensures c !in NameOf(k)
  {
    var name := NameOf(k);
    forall i | 0 <= i < |name| ensures name[i] != c {
      assert i == 0 || i == 1 || i == 2 || i == 3 || i == 4;
    }
  }

  /** The option fields of a tunnel; `Option` stands for a pointer field. */
  datatype Options = Options(
    tlsMode: string, logLevel: string, certPath: Option<string>, keyPath: Option<string>,
    min: Option<int>, max: Option<int>, mode: Option<int>, read: Option<string>,
    rate: Option<int>, slot: Option<int>, proxy: Option<bool>, dial: Option<string>,
    dns: Option<string>, poolType: Option<int>, sni: Option<string>, block: Option<int>,
    listenType: Option<string>)

  const DEFAULTS := Options("", "", None, None, None, None, None, None, None, None, None, None,
                            None, None, None, None, None)

  /** The parser's working state: the fields, and the two raw values from which the listen type follows. */
  datatype Scan = Scan(o: Options, noTcp: Option<string>, noUdp: Option<string>)

  // ---------------------------------------------------------------- reading

  function LogLevelOf(val: string): (level: string)
    ensures level in {"debug", "info", "warn", "error", "event", "none", ""}
  {
    var lower := ToLower(val);
    if lower in {"debug", "info", "warn", "error", "event", "none"} then lower else ""
  }

  /** A path or address: the decoded text, or the text itself when it is not well encoded. */
  function Decoded(val: string): string {
    match QueryEscape.Unescape(val)
    case Some(text) => text
    case None => val
  }

  function Selector(val: string): Option<int> {
    if val == "0" then Some(0) else if val == "1" then Some(1) else if val == "2" then Some(2) else None
  }

  function Ranged(val: string): Option<int> {
    var n := Decimal.Parse(val);
    if n.Some? && 0 <= n.value <= 3 then n else None
  }

  function Flag(val: string): Option<bool> {
    if val == "0" then Some(false) else if val == "1" then Some(true) else None
  }

  /** One arm of the source's switch. */
  function SetParam(kind: string, s: Scan, k: Key, val: string): Scan {
    var o := s.o;
    match k
    case Tls => if kind == "server" && Selector(val).Some? then s.(o := o.(tlsMode := val)) else s
    case Log => s.(o := o.(logLevel := LogLevelOf(val)))
    case Crt => s.(o := o.(certPath := Some(Decoded(val))))
    case KeyFile => s.(o := o.(keyPath := Some(Decoded(val))))
    case Min => if Decimal.Parse(val).Some? then s.(o := o.(min := Decimal.Parse(val))) else s
    case Max => if Decimal.Parse(val).Some? then s.(o := o.(max := Decimal.Parse(val))) else s
    case Mode => if Selector(val).Some? then s.(o := o.(mode := Selector(val))) else s
    case Read => if val != "" then s.(o := o.(read := Some(val))) else s
    case Rate => if Decimal.Parse(val).Some? then s.(o := o.(rate := Decimal.Parse(val))) else s
    case Slot => if Decimal.Parse(val).Some? then s.(o := o.(slot := Decimal.Parse(val))) else s
    case Proxy => if Flag(val).Some? then s.(o := o.(proxy := Flag(val))) else s
    case NoTcp => s.(noTcp := Some(val))
    case NoUdp => s.(noUdp := Some(val))
    case Dial => s.(o := o.(dial := Some(Decoded(val))))
    case Dns => s.(o := o.(dns := Some(val)))
    case Pool => if Ranged(val).Some? then s.(o := o.(poolType := Ranged(val))) else s
    case Sni => s.(o := o.(sni := Some(val)))
    case Block => if Ranged(val).Some? then s.(o := o.(block := Ranged(val))) else s
    case Unknown => s
  }

  /** One pass of the source's loop: pieces without '=' are skipped. */
  function ScanPiece(kind: string, s: Scan, piece: string): Scan {
    var kv := CutAt(piece, '=');
    if kv.found then SetParam(kind, s, KeyOf(kv.before), kv.after) else s
  }

  function ScanPieces(kind: string, pieces: seq<string>): Scan {
    if pieces == [] then Scan(DEFAULTS, None, None)
    else ScanPiece(kind, ScanPieces(kind, pieces[..|pieces| - 1]), pieces[|pieces| - 1])
  }

  /** The listen type; with both protocols switched off it stays unset. */
  function ListenTypeOf(noTcp: Option<string>, noUdp: Option<string>): Option<string> {
    var tcp := noTcp != Some("1");
    var udp := noUdp != Some("1");
    if noTcp.None? && noUdp.None? then None
    else if tcp && udp then Some("ALL")
    else if tcp then Some("TCP")
    else if udp then Some("UDP")
    else None
  }

  function Finish(s: Scan): Options {
    s.o.(listenType := ListenTypeOf(s.noTcp, s.noUdp))
  }

  function ReadOptions(kind: string, query: string): Options {
    Finish(ScanPieces(kind, Split(query, '&')))
  }

  // --------------------------------------------- an order-free view of the scan

  datatype Entry = Entry(key: Key, val: string)

  function TextOf(e: Entry): string {
    NameOf(e.key) + "=" + e.val
  }

  function EntryOf(piece: string): (es: seq<Entry>)
    ensures |es| <= 1
  {
    var kv := CutAt(piece, '=');
    if kv.found && KeyOf(kv.before) != Unknown then [Entry(KeyOf(kv.before), kv.after)] else []
  }

  function EntriesOf(pieces: seq<string>): seq<Entry> {
    if pieces == [] then [] else EntriesOf(pieces[..|pieces| - 1]) + EntryOf(pieces[|pieces| - 1])
  }

  ghost predicate DistinctKeys(es: seq<Entry>) {
    forall i, j :: 0 <= i < j < |es| ==> es[i].key != es[j].key
  }

  /** The value of the last entry with this key. */
  ghost function Lookup(es: seq<Entry>, k: Key): (v: Option<string>)
    ensures v.Some? ==> Entry(k, v.value) in es
  {
    if es == [] then None
    else if es[|es| - 1].key == k then Some(es[|es| - 1].val)
    else Lookup(es[..|es| - 1], k)
  }

  function TlsOf(kind: string, v: Option<string>): string {
    if v.Some? && kind == "server" && Selector(v.value).Some? then v.value else ""
  }

  function LevelOf(v: Option<string>): string {
    if v.Some? then LogLevelOf(v.value) else ""
  }

  function DecodedOf(v: Option<string>): Option<string> {
    if v.Some? then Some(Decoded(v.value)) else None
  }

  function NumberOf(v: Option<string>): Option<int> {
    if v.Some? then Decimal.Parse(v.value) else None
  }

  function SelectorOf(v: Option<string>): Option<int> {
    if v.Some? then Selector(v.value) else None
  }

  function RangedOf(v: Option<string>): Option<int> {
    if v.Some? then Ranged(v.value) else None
  }

  function FlagOf(v: Option<string>): Option<bool> {
    if v.Some? then Flag(v.value) else None
  }

  /** What the parser computes, said without any order: each field from the value of its own key. */
  ghost function FromValues(kind: string, f: Key -> Option<string>): Scan {
    Scan(Options(TlsOf(kind, f(Tls)), LevelOf(f(Log)), DecodedOf(f(Crt)), DecodedOf(f(KeyFile)),
                 NumberOf(f(Min)), NumberOf(f(Max)), SelectorOf(f(Mode)), NonEmpty(f(Read)),
                 NumberOf(f(Rate)), NumberOf(f(Slot)), FlagOf(f(Proxy)), DecodedOf(f(Dial)),
                 f(Dns), RangedOf(f(Pool)), f(Sni), RangedOf(f(Block)), None),
         f(NoTcp), f(NoUdp))
  }

  ghost function Values(es: seq<Entry>): Key -> Option<string> {
    k => Lookup(es, k)
  }

  predicate Extends(f: Key -> Option<string>, g: Key -> Option<string>, k: Key, val: string) {
    f(k) == None && forall j :: g(j) == if j == k then Some(val) else f(j)
  }

  lemma SetNumber(kind: string, f: Key -> Option<string>, g: Key -> Option<string>, k: Key, val: string)
    requires Extends(f, g, k, val) && k in {Min, Max, Rate, Slot}
    ensures SetParam(kind, FromValues(kind, f), k, val) == FromValues(kind, g)
  {
    hide Decimal.Parse, SelectorOf, RangedOf, FlagOf, TlsOf, LevelOf, DecodedOf, NonEmpty;
  }

  lemma SetChoice(kind: string, f: Key -> Option<string>, g: Key -> Option<string>, k: Key, val: string)
    requires Extends(f, g, k, val) && k in {Mode, Proxy, Pool, Block}
    ensures SetParam(kind, FromValues(kind, f), k, val) == FromValues(kind, g)
  {
    hide Selector, Ranged, Flag, NumberOf, TlsOf, LevelOf, DecodedOf, NonEmpty;
  }

  lemma SetText(kind: string, f: Key -> Option<string>, g: Key -> Option<string>, k: Key, val: string)
    requires Extends(f, g, k, val) && k in {Tls, Log, Crt, KeyFile, Read}
    ensures SetParam(kind, FromValues(kind, f), k, val) == FromValues(kind, g)
  {
    hide Decoded, LogLevelOf, Selector, NumberOf, SelectorOf, RangedOf, FlagOf;
  }

  lemma SetRaw(kind: string, f: Key -> Option<string>, g: Key -> Option<string>, k: Key, val: string)
    requires Extends(f, g, k, val) && k in {NoTcp, NoUdp, Dial, Dns, Sni}
    ensures SetParam(kind, FromValues(kind, f), k, val) == FromValues(kind, g)
  {
    hide Decoded, NumberOf, SelectorOf, RangedOf, FlagOf, TlsOf, LevelOf, NonEmpty;
  }

  lemma SetAny(kind: string, f: Key -> Option<string>, g: Key -> Option<string>, k: Key, val: string)
    requires Extends(f, g, k, val) && k != Unknown
    ensures SetParam(kind, FromValues(kind, f), k, val) == FromValues(kind, g)
  {
    hide SetParam, FromValues, Extends;
    if k in {Min, Max, Rate, Slot} {
      SetNumber(kind, f, g, k, val);
    } else if k in {Mode, Proxy, Pool, Block} {
      SetChoice(kind, f, g, k, val);
    } else if k in {Tls, Log, Crt, KeyFile, Read} {
      SetText(kind, f, g, k, val);
    } else {
      SetRaw(kind, f, g, k, val);
    }
  }

  lemma {:induction false} LookupFinds(es: seq<Entry>)
    requires DistinctKeys(es)
    ensures forall e :: e in es ==> Lookup(es, e.key) == Some(e.val)
  {
    if es != [] {
      LookupFinds(es[..|es| - 1]);
      assert es == es[..|es| - 1] + [es[|es| - 1]];
    }
  }

  /** Looking up in a longer list: the added entry has a new key. */
  lemma {:induction false} LookupSnoc(es: seq<Entry>, e: Entry, k: Key)
    ensures Lookup(es + [e], k) == if k == e.key then Some(e.val) else Lookup(es, k)
  {
    assert (es + [e])[..|es|] == es;
  }

  lemma {:induction false} FreshKey(es: seq<Entry>, e: Entry)
    requires DistinctKeys(es + [e])
    ensures Lookup(es, e.key).None?
  {
    assert forall i :: 0 <= i < |es| ==> (es + [e])[i] == es[i];
    assert (es + [e])[|es|] == e;
  }

  lemma SetEntry(kind: string, es: seq<Entry>, e: Entry)
    requires DistinctKeys(es + [e]) && e.key != Unknown
    ensures SetParam(kind, FromValues(kind, Values(es)), e.key, e.val) == FromValues(kind, Values(es + [e]))
  {
    FreshKey(es, e);
    hide SetParam, FromValues, Lookup;
    forall k ensures Values(es + [e])(k) == if k == e.key then Some(e.val) else Values(es)(k) {
      LookupSnoc(es, e, k);
    }
    SetAny(kind, Values(es), Values(es + [e]), e.key, e.val);
  }

  /** Adding one piece to the scan is adding its entry to the values. */
  lemma PieceOnValues(kind: string, es: seq<Entry>, piece: string)
    requires DistinctKeys(es + EntryOf(piece))
    ensures ScanPiece(kind, FromValues(kind, Values(es)), piece) == FromValues(kind, Values(es + EntryOf(piece)))
  {
    hide FromValues, Values, Lookup, KeyOf;
    if EntryOf(piece) == [] {
      assert es + EntryOf(piece) == es;
    } else {
      SetEntry(kind, es, EntryOf(piece)[0]);
      hide SetParam;
    }
  }

  /** With distinct keys the parser's loop computes the order-free view. */
  lemma {:induction false} ScanIsValues(kind: string, pieces: seq<string>)
    requires DistinctKeys(EntriesOf(pieces))
    ensures ScanPieces(kind, pieces) == FromValues(kind, Values(EntriesOf(pieces)))
  {
    if pieces != [] {
      var front, last := pieces[..|pieces| - 1], pieces[|pieces| - 1];
      assert EntriesOf(pieces) == EntriesOf(front) + EntryOf(last);
      DistinctPrefix(EntriesOf(front), EntryOf(last));
      ScanIsValues(kind, front);
      PieceOnValues(kind, EntriesOf(front), last);
    }
  }

  lemma DistinctPrefix(xs: seq<Entry>, ys: seq<Entry>)
    requires DistinctKeys(xs + ys)
    ensures DistinctKeys(xs)
  {
    assert forall i :: 0 <= i < |xs| ==> xs[i] == (xs + ys)[i];
  }

  lemma SameValues(kind: string, f: Key -> Option<string>, g: Key -> Option<string>)
    requires forall k :: f(k) == g(k)
    ensures FromValues(kind, f) == FromValues(kind, g)
  {
  }

  /** The same entries in any order give the same values. */
  lemma SameEntries(xs: seq<Entry>, ys: seq<Entry>)
    requires DistinctKeys(xs) && DistinctKeys(ys)
    requires forall e :: e in xs <==> e in ys
    ensures forall k :: Values(xs)(k) == Values(ys)(k)
  {
    LookupFinds(xs);
    LookupFinds(ys);
    forall k ensures Lookup(xs, k) == Lookup(ys, k) {
      if Lookup(xs, k).Some? { assert Entry(k, Lookup(xs, k).value) in ys; }
      if Lookup(ys, k).Some? { assert Entry(k, Lookup(ys, k).value) in xs; }
    }
  }

  // --------------------------------------------------------------- printing

  /** What `BuildTunnelURLs` prints for a parameter, or None when it prints nothing. */
  function Printed(kind: string, o: Options, k: Key): Option<string> {
    match k
    case Log => NonEmpty(Some(o.logLevel))
    case Tls => if kind == "server" then NonEmpty(Some(o.tlsMode)) else None
    case Crt => Escaped(NonEmpty(o.certPath))
    case KeyFile => Escaped(NonEmpty(o.keyPath))
    case Min => Number(o.min)
    case Max => Number(o.max)
    case Mode => Number(o.mode)
    case Read => NonEmpty(o.read)
    case Rate => Number(o.rate)
    case Slot => Number(o.slot)
    case Dial => Escaped(o.dial)
    case Dns => o.dns
    case Pool => Number(o.poolType)
    case Sni => NonEmpty(o.sni)
    case Block => Number(o.block)
    case Proxy => Switch(o.proxy)
    case NoTcp => Disabled(o.listenType, "UDP")
    case NoUdp => Disabled(o.listenType, "TCP")
    case Unknown => None
  }

  function NonEmpty(s: Option<string>): Option<string> {
    if s == Some("") then None else s
  }

  function Escaped(s: Option<string>): Option<string> {
    if s.None? then None else Some(QueryEscape.Escape(s.value))
  }

  function Number(n: Option<int>): Option<string> {
    if n.None? then None else Some(Decimal.Format(n.value))
  }

  function Switch(b: Option<bool>): Option<string> {
    if b.None? then None else Some(if b.value then "1" else "0")
  }

  /** The value of notcp or noudp, printed for the three known listen types only. */
  function Disabled(listenType: Option<string>, other: string): Option<string> {
    if listenType == Some(other) then Some("1")
    else if listenType in {Some("TCP"), Some("UDP"), Some("ALL")} then Some("0")
    else None
  }

  /** The order in which `BuildTunnelURLs` appends its parameters. */
  const URL_ORDER: seq<Key> :=
    [Log, Tls, Crt, KeyFile, Min, Max, Mode, Read, Rate, Slot, Dial, Dns, Pool, Sni, Block, Proxy, NoTcp, NoUdp]

  /** One entry for each listed key that has a value. */
  function Listed(keys: seq<Key>, f: Key -> Option<string>): seq<Entry> {
    if keys == [] then []
    else
      var k := keys[|keys| - 1];
      Listed(keys[..|keys| - 1], f) + if f(k).Some? then [Entry(k, f(k).value)] else []
  }

  function Texts(es: seq<Entry>): (xs: seq<string>)
    ensures |xs| == |es|
    ensures forall i :: 0 <= i < |es| ==> xs[i] == TextOf(es[i])
  {
    seq(|es|, i requires 0 <= i < |es| => TextOf(es[i]))
  }

  function QueryOf(keys: seq<Key>, f: Key -> Option<string>): string {
    Join(Texts(Listed(keys, f)), '&')
  }

  ghost predicate NoDuplicates(keys: seq<Key>) {
    forall i, j :: 0 <= i < j < |keys| ==> keys[i] != keys[j]
  }

  lemma {:induction false} ListedFacts(keys: seq<Key>, f: Key -> Option<string>)
    requires NoDuplicates(keys)
    ensures DistinctKeys(Listed(keys, f))
    ensures forall e :: e in Listed(keys, f) <==> e.key in keys && f(e.key) == Some(e.val)
  {
    if keys != [] {
      var front := keys[..|keys| - 1];
      ListedFacts(front, f);
      assert keys == front + [keys[|keys| - 1]];
      assert forall i :: 0 <= i < |Listed(front, f)| ==> Listed(front, f)[i] in Listed(front, f);
    }
  }

  lemma EntryOfText(e: Entry)
    requires e.key != Unknown
    ensures EntryOf(TextOf(e)) == [e]
  {
    KeyOfName(e.key);
    NamesArePlain(e.key, '=');
    CutOfConcat(NameOf(e.key), '=', e.val);
    hide NameOf, KeyOf;
    assert TextOf(e) == NameOf(e.key) + ['='] + e.val;
  }

  lemma {:induction false} EntriesOfTexts(es: seq<Entry>)
    requires forall e :: e in es ==> e.key != Unknown
    ensures EntriesOf(Texts(es)) == es
  {
    hide EntryOf, TextOf;
    if es != [] {
      var front, last := es[..|es| - 1], es[|es| - 1];
      assert es == front + [last];
      EntriesOfTexts(front);
      assert Texts(es)[..|es| - 1] == Texts(front);
      EntryOfText(last);
    }
  }

  /** Every value printed raw is free of the parameter separator. */
  predicate AmpersandFree(o: Options) {
    && '&' !in o.tlsMode && '&' !in o.logLevel
    && (o.read.Some? ==> '&' !in o.read.value)
    && (o.dns.Some? ==> '&' !in o.dns.value)
    && (o.sni.Some? ==> '&' !in o.sni.value)
  }

  lemma PrintedHas(kind: string, o: Options, k: Key, c: char)
    requires c == '&' || c == '@'
    requires Printed(kind, o, k).Some? && c in Printed(kind, o, k).value
    ensures || (k == Tls && c in o.tlsMode) || (k == Log && c in o.logLevel)
            || (k == Read && o.read.Some? && c in o.read.value) || (k == Dns && o.dns.Some? && c in o.dns.value)
            || (k == Sni && o.sni.Some? && c in o.sni.value)
  {
  }

  lemma ReadNothing(kind: string)
    ensures ReadOptions(kind, "") == DEFAULTS
  {
    var none := [""];
    assert Split("", '&') == none;
    assert none[..0] == [];
    assert ScanPieces(kind, none) == ScanPieces(kind, []);
  }

  lemma ReadTexts(kind: string, es: seq<Entry>)
    requires DistinctKeys(es)
    requires forall e :: e in es ==> e.key != Unknown && '&' !in e.val
    ensures ReadOptions(kind, Join(Texts(es), '&')) == Finish(FromValues(kind, Values(es)))
  {
    if es == [] {
      ReadNothing(kind);
    } else {
      forall x | x in Texts(es) ensures '&' !in x {
        var i :| 0 <= i < |es| && Texts(es)[i] == x;
        assert es[i] in es;
        NamesArePlain(es[i].key, '&');
      }
      SplitOfJoin(Texts(es), '&');
      EntriesOfTexts(es);
      ScanIsValues(kind, Texts(es));
    }
  }

  /** Reading a printed query, in any parameter order, gives the order-free view of the printed values. */
  lemma ReadListed(kind: string, keys: seq<Key>, f: Key -> Option<string>)
    requires NoDuplicates(keys) && Unknown !in keys
    requires forall k :: k in keys && f(k).Some? ==> '&' !in f(k).value
    requires forall k :: k !in keys ==> f(k).None?
    ensures ReadOptions(kind, QueryOf(keys, f)) == Finish(FromValues(kind, f))
  {
    var es := Listed(keys, f);
    ListedFacts(keys, f);
    ReadTexts(kind, es);
    LookupFinds(es);
    forall k ensures Lookup(es, k) == f(k) {
      if f(k).Some? { assert Entry(k, f(k).value) in es; }
      if Lookup(es, k).Some? { assert Entry(k, Lookup(es, k).value) in es; }
    }
    SameValues(kind, Values(es), f);
  }

  // ------------------------------------------------- order does not matter

  /** Among the pieces that are parameters, no recognised name occurs twice. */
  ghost predicate DistinctNames(pieces: seq<string>) {
    forall i, j :: 0 <= i < j < |pieces| && EntryOf(pieces[i]) != [] && EntryOf(pieces[j]) != [] ==>
      EntryOf(pieces[i])[0].key != EntryOf(pieces[j])[0].key
  }

  ghost predicate SomePieceGives(pieces: seq<string>, e: Entry) {
    exists i :: 0 <= i < |pieces| && EntryOf(pieces[i]) == [e]
  }

  lemma SomePieceStep(front: seq<string>, last: string, e: Entry)
    ensures SomePieceGives(front + [last], e) <==> SomePieceGives(front, e) || EntryOf(last) == [e]
  {
    hide EntryOf;
    var pieces := front + [last];
    if SomePieceGives(front, e) {
      var i :| 0 <= i < |front| && EntryOf(front[i]) == [e];
      assert EntryOf(pieces[i]) == [e];
    }
    if EntryOf(last) == [e] {
      assert EntryOf(pieces[|front|]) == [e];
    }
    if SomePieceGives(pieces, e) {
      var i :| 0 <= i < |pieces| && EntryOf(pieces[i]) == [e];
      assert i < |front| ==> front[i] == pieces[i];
    }
  }

  lemma {:induction false} EntriesHave(pieces: seq<string>)
    ensures forall e :: e in EntriesOf(pieces) <==> SomePieceGives(pieces, e)
  {
    if pieces != [] {
      var front, last := pieces[..|pieces| - 1], pieces[|pieces| - 1];
      EntriesHave(front);
      assert pieces == front + [last];
      assert EntriesOf(pieces) == EntriesOf(front) + EntryOf(last);
      hide SomePieceGives, EntryOf, EntriesOf;
      forall e ensures e in EntriesOf(pieces) <==> SomePieceGives(pieces, e) {
        SomePieceStep(front, last, e);
      }
    }
  }

  lemma {:induction false} EntriesDistinct(pieces: seq<string>)
    requires DistinctNames(pieces)
    ensures DistinctKeys(EntriesOf(pieces))
  {
    hide EntryOf;
    if pieces != [] {
      var front, last := pieces[..|pieces| - 1], pieces[|pieces| - 1];
      assert forall i :: 0 <= i < |front| ==> front[i] == pieces[i];
      EntriesDistinct(front);
      EntriesHave(front);
      var es := EntriesOf(front);
      if EntryOf(last) != [] {
        forall i | 0 <= i < |es| ensures es[i].key != EntryOf(last)[0].key {
          assert SomePieceGives(front, es[i]);
          var j :| 0 <= j < |front| && EntryOf(front[j]) == [es[i]];
          assert pieces[j] == front[j] && pieces[|front|] == last;
        }
      }
    }
  }

  /** Permuting query parameters with distinct names never changes what is read. */
  lemma {:induction false} OrderDoesNotMatter(kind: string, xs: seq<string>, ys: seq<string>)
    requires multiset(xs) == multiset(ys) && DistinctNames(xs) && DistinctNames(ys)
    ensures Finish(ScanPieces(kind, xs)) == Finish(ScanPieces(kind, ys))
  {
    EntriesDistinct(xs);
    EntriesDistinct(ys);
    EntriesHave(xs);
    EntriesHave(ys);
    SamePieces(xs, ys);
    SamePieces(ys, xs);
    SameEntries(EntriesOf(xs), EntriesOf(ys));
    SameValues(kind, Values(EntriesOf(xs)), Values(EntriesOf(ys)));
    ScanIsValues(kind, xs);
    ScanIsValues(kind, ys);
  }

  lemma SamePieces(xs: seq<string>, ys: seq<string>)
    requires multiset(xs) == multiset(ys)
    ensures forall i :: 0 <= i < |xs| ==> exists j :: 0 <= j < |ys| && ys[j] == xs[i]
  {
    forall i | 0 <= i < |xs| ensures exists j :: 0 <= j < |ys| && ys[j] == xs[i] {
      assert xs[i] in multiset(xs);
      assert xs[i] in multiset(ys);
      var j :| 0 <= j < |ys| && ys[j] == xs[i];
    }
  }

  // ------------------------------------------------- the round trip of the fields

  predicate IsGoInt(n: Option<int>) {
    n.Some? ==> Decimal.IsInt64(n.value)
  }

  predicate IsGoText(s: Option<string>) {
    s.Some? ==> QueryEscape.IsByteText(s.value)
  }

  /** The values a Go tunnel can hold: 64-bit integers and byte strings. */
  predicate GoOptions(o: Options) {
    && IsGoInt(o.min) && IsGoInt(o.max) && IsGoInt(o.mode) && IsGoInt(o.rate)
    && IsGoInt(o.slot) && IsGoInt(o.poolType) && IsGoInt(o.block)
    && IsGoText(o.certPath) && IsGoText(o.keyPath) && IsGoText(o.dial)
  }

  /**
   Options that survive printing and reading: enumerations in range, no empty text where an empty text is not
   printed.
   */
  predicate OptionsOk(kind: string, o: Options) {
    && o.tlsMode in {"", "0", "1", "2"} && (o.tlsMode != "" ==> kind == "server")
    && o.logLevel in {"", "debug", "info", "warn", "error", "event", "none"}
    && o.certPath != Some("") && o.keyPath != Some("") && o.read != Some("") && o.sni != Some("")
    && (o.mode.Some? ==> 0 <= o.mode.value <= 2)
    && (o.poolType.Some? ==> 0 <= o.poolType.value <= 3)
    && (o.block.Some? ==> 0 <= o.block.value <= 3)
    && o.listenType in {None, Some("ALL"), Some("TCP"), Some("UDP")}
  }

  lemma NumberReads(n: Option<int>)
    requires IsGoInt(n)
    ensures NumberOf(Number(n)) == n
    ensures RangedOf(Number(n)) == n <==> n.None? || 0 <= n.value <= 3
    ensures SelectorOf(Number(n)) == n <==> n.None? || 0 <= n.value <= 2
  {
    if n.Some? {
      Decimal.RoundTrip(n.value);
      assert Decimal.DigitsOf(0) == "0" && Decimal.DigitsOf(1) == "1" && Decimal.DigitsOf(2) == "2";
    }
  }

  lemma TextReads(s: Option<string>)
    requires IsGoText(s)
    ensures DecodedOf(Escaped(s)) == s
  {
    if s.Some? {
      QueryEscape.RoundTrip(s.value);
    }
  }

  lemma LevelReads(level: string)
    requires level != ""
    ensures LogLevelOf(level) == level <==> level in {"debug", "info", "warn", "error", "event", "none"}
  {
    if level in {"debug", "info", "warn", "error", "event", "none"} {
      assert forall i :: 0 <= i < |level| ==> 'a' <= level[i] <= 'z';
      LowerStays(level);
    }
  }

  lemma ListenTypeReads(listenType: Option<string>)
    ensures ListenTypeOf(Disabled(listenType, "UDP"), Disabled(listenType, "TCP")) == listenType <==>
            listenType in {None, Some("ALL"), Some("TCP"), Some("UDP")}
  {
    var all, tcp, udp := "ALL", "TCP", "UDP";
    assert all[0] == 'A' && tcp[0] == 'T' && udp[0] == 'U';
  }

  lemma EnumsRead(kind: string, o: Options)
    ensures TlsOf(kind, Printed(kind, o, Tls)) == o.tlsMode <==>
            o.tlsMode in {"", "0", "1", "2"} && (o.tlsMode != "" ==> kind == "server")
    ensures LevelOf(NonEmpty(Some(o.logLevel))) == o.logLevel <==>
            o.logLevel in {"", "debug", "info", "warn", "error", "event", "none"}
    ensures ListenTypeOf(Disabled(o.listenType, "UDP"), Disabled(o.listenType, "TCP")) == o.listenType <==>
            o.listenType in {None, Some("ALL"), Some("TCP"), Some("UDP")}
  {
    if o.logLevel != "" {
      LevelReads(o.logLevel);
    }
    ListenTypeReads(o.listenType);
  }

  /** What a parser that saw every printed value computes, field by field. */
  ghost function Reread(kind: string, o: Options): Scan {
    Scan(Options(TlsOf(kind, Printed(kind, o, Tls)), LevelOf(NonEmpty(Some(o.logLevel))),
                 DecodedOf(Escaped(NonEmpty(o.certPath))), DecodedOf(Escaped(NonEmpty(o.keyPath))),
                 NumberOf(Number(o.min)), NumberOf(Number(o.max)), SelectorOf(Number(o.mode)),
                 NonEmpty(NonEmpty(o.read)), NumberOf(Number(o.rate)), NumberOf(Number(o.slot)),
                 FlagOf(Switch(o.proxy)), DecodedOf(Escaped(o.dial)), o.dns, RangedOf(Number(o.poolType)),
                 NonEmpty(o.sni), RangedOf(Number(o.block)), None),
         Disabled(o.listenType, "UDP"), Disabled(o.listenType, "TCP"))
  }

  lemma PrintedIsReread(kind: string, o: Options)
    ensures FromValues(kind, k => Printed(kind, o, k)) == Reread(kind, o)
  {
    hide NumberOf, RangedOf, SelectorOf, DecodedOf, FlagOf, LevelOf, TlsOf, NonEmpty, Number, Escaped, Disabled, Switch;
  }

  lemma FlagReads(b: Option<bool>)
    ensures FlagOf(Switch(b)) == b
  {
  }

  lemma NonEmptyKeeps(s: Option<string>)
    ensures NonEmpty(s) == s <==> s != Some("")
    ensures NonEmpty(NonEmpty(s)) == NonEmpty(s)
  {
  }

  lemma PathsRead(o: Options)
    requires GoOptions(o)
    ensures DecodedOf(Escaped(NonEmpty(o.certPath))) == o.certPath <==> o.certPath != Some("")
    ensures DecodedOf(Escaped(NonEmpty(o.keyPath))) == o.keyPath <==> o.keyPath != Some("")
    ensures DecodedOf(Escaped(o.dial)) == o.dial
  {
    TextReads(NonEmpty(o.certPath));
    TextReads(NonEmpty(o.keyPath));
    TextReads(o.dial);
    hide DecodedOf, Escaped;
  }

  lemma NumbersRead(o: Options)
    requires GoOptions(o)
    ensures NumberOf(Number(o.min)) == o.min && NumberOf(Number(o.max)) == o.max
    ensures NumberOf(Number(o.rate)) == o.rate && NumberOf(Number(o.slot)) == o.slot
    ensures SelectorOf(Number(o.mode)) == o.mode <==> (o.mode.Some? ==> 0 <= o.mode.value <= 2)
    ensures RangedOf(Number(o.poolType)) == o.poolType <==> (o.poolType.Some? ==> 0 <= o.poolType.value <= 3)
    ensures RangedOf(Number(o.block)) == o.block <==> (o.block.Some? ==> 0 <= o.block.value <= 3)
  {
    hide NumberOf, Number, RangedOf, SelectorOf;
    NumberReads(o.min);
    NumberReads(o.max);
    NumberReads(o.rate);
    NumberReads(o.slot);
    NumberReads(o.mode);
    NumberReads(o.poolType);
    NumberReads(o.block);
  }

  lemma RereadExact(kind: string, o: Options)
    requires GoOptions(o)
    ensures Finish(Reread(kind, o)) == o <==> OptionsOk(kind, o)
  {
    hide NumberOf, Number, RangedOf, SelectorOf, DecodedOf, Escaped, FlagOf, LevelOf, TlsOf, ListenTypeOf, Disabled;
    hide NonEmpty, GoOptions, Printed, Switch;
    FlagReads(o.proxy);
    EnumsRead(kind, o);
    NonEmptyKeeps(o.read);
    NonEmptyKeeps(o.sni);
    PathsRead(o);
    NumbersRead(o);
  }

  /** The fields are read back exactly when they are in range. */
  lemma FieldsExact(kind: string, o: Options, f: Key -> Option<string>)
    requires GoOptions(o) && forall k :: f(k) == Printed(kind, o, k)
    ensures Finish(FromValues(kind, f)) == o <==> OptionsOk(kind, o)
  {
    hide FromValues, Reread, Finish, OptionsOk, GoOptions, Printed;
    SameValues(kind, f, k => Printed(kind, o, k));
    PrintedIsReread(kind, o);
    RereadExact(kind, o);
  }
}
