/**
 What the parser makes of query parameters, said about their texts: with distinct names each
 parameter decides its own field, whoever wrote it and in whatever spelling.
 */
module OptionTexts {
  import opened Wrappers
  import opened Text
  import opened TunnelOptions
  import Decimal
  import QueryEscape

  /** Some piece begins with this name and an equals sign. */
  predicate Named(pieces: seq<string>, name: string) {
    exists i :: 0 <= i < |pieces| && name + "=" <= pieces[i]
  }

  /** The query's pieces, with no recognised name twice. */
  ghost predicate Clear(query: string) {
    DistinctNames(Split(query, '&'))
  }

  predicate Has(query: string, name: string, val: string) {
    name + "=" + val in Split(query, '&')
  }

  // ------------------------------------------------ each piece gives its value

  lemma PieceIsNamed(piece: string, k: Key, val: string)
    requires k != Unknown
    ensures EntryOf(piece) == [Entry(k, val)] <==> piece == NameOf(k) + "=" + val
  {
    if piece == NameOf(k) + "=" + val {
      EntryOfText(Entry(k, val));
    }
    if EntryOf(piece) == [Entry(k, val)] {
      var kv := CutAt(piece, '=');
      NameOfKey(kv.before);
      assert piece == kv.before + ['='] + kv.after;
    }
  }

  lemma NameOfKey(name: string)
    ensures KeyOf(name) != Unknown ==> NameOf(KeyOf(name)) == name
  {
  }

  /** The value that a query with distinct names gives for a key. */
  lemma {:induction false} ValueRead(pieces: seq<string>, k: Key, val: string)
    requires DistinctNames(pieces) && k != Unknown
    ensures Lookup(EntriesOf(pieces), k) == Some(val) <==> NameOf(k) + "=" + val in pieces
  {
    EntriesDistinct(pieces);
    EntriesHave(pieces);
    LookupFinds(EntriesOf(pieces));
    hide EntryOf, EntriesOf, Lookup, NameOf, DistinctNames, DistinctKeys;
    var e := Entry(k, val);
    if NameOf(k) + "=" + val in pieces {
      var i :| 0 <= i < |pieces| && pieces[i] == NameOf(k) + "=" + val;
      PieceIsNamed(pieces[i], k, val);
      assert SomePieceGives(pieces, e);
    }
    if Lookup(EntriesOf(pieces), k) == Some(val) {
      assert e in EntriesOf(pieces);
      var i :| 0 <= i < |pieces| && EntryOf(pieces[i]) == [e];
      PieceIsNamed(pieces[i], k, val);
    }
  }

  lemma {:induction false} ValueMissing(pieces: seq<string>, k: Key)
    requires DistinctNames(pieces) && k != Unknown
    ensures Lookup(EntriesOf(pieces), k) == None <==> !Named(pieces, NameOf(k))
  {
    hide EntriesOf, Lookup, NameOf, DistinctNames;
    if Lookup(EntriesOf(pieces), k).Some? {
      var val := Lookup(EntriesOf(pieces), k).value;
      ValueRead(pieces, k, val);
      var i :| 0 <= i < |pieces| && pieces[i] == NameOf(k) + "=" + val;
      assert NameOf(k) + "=" <= pieces[i];
    }
    if Named(pieces, NameOf(k)) {
      var i :| 0 <= i < |pieces| && NameOf(k) + "=" <= pieces[i];
      var val := pieces[i][|NameOf(k)| + 1..];
      assert pieces[i] == NameOf(k) + "=" + val;
      ValueRead(pieces, k, val);
    }
  }

  /** With distinct names the options are the fields of the values. */
  lemma {:induction false} ReadByValues(kind: string, query: string)
    requires Clear(query)
    ensures ReadOptions(kind, query) == Finish(FromValues(kind, Values(EntriesOf(Split(query, '&')))))
  {
    hide EntriesOf, ScanPieces, FromValues, Values, Finish, Split;
    EntriesDistinct(Split(query, '&'));
    ScanIsValues(kind, Split(query, '&'));
  }

  /** What a field is, given the value of its key. */
  predicate FieldIs(kind: string, o: Options, k: Key, v: Option<string>) {
    match k
    case Tls => o.tlsMode == TlsOf(kind, v)
    case Log => o.logLevel == LevelOf(v)
    case Crt => o.certPath == DecodedOf(v)
    case KeyFile => o.keyPath == DecodedOf(v)
    case Min => o.min == NumberOf(v)
    case Max => o.max == NumberOf(v)
    case Mode => o.mode == SelectorOf(v)
    case Read => o.read == NonEmpty(v)
    case Rate => o.rate == NumberOf(v)
    case Slot => o.slot == NumberOf(v)
    case Proxy => o.proxy == FlagOf(v)
    case Dial => o.dial == DecodedOf(v)
    case Dns => o.dns == v
    case Pool => o.poolType == RangedOf(v)
    case Sni => o.sni == v
    case Block => o.block == RangedOf(v)
    case _ => true
  }

  lemma FieldOfValues(kind: string, f: Key -> Option<string>, k: Key)
    ensures FieldIs(kind, Finish(FromValues(kind, f)), k, f(k))
  {
    hide TlsOf, LevelOf, DecodedOf, NumberOf, SelectorOf, NonEmpty, FlagOf, RangedOf, ListenTypeOf;
  }

  /** A piece with the key's name decides its field. */
  lemma {:induction false} FieldRead(kind: string, query: string, k: Key, val: string)
    requires Clear(query) && k != Unknown
    ensures Has(query, NameOf(k), val) ==> FieldIs(kind, ReadOptions(kind, query), k, Some(val))
    ensures !Named(Split(query, '&'), NameOf(k)) ==> FieldIs(kind, ReadOptions(kind, query), k, None)
  {
    hide FieldIs, FromValues, Finish, ReadOptions, EntriesOf, Lookup, NameOf, Named, DistinctNames, Split;
    ReadByValues(kind, query);
    FieldOfValues(kind, Values(EntriesOf(Split(query, '&'))), k);
    ValueRead(Split(query, '&'), k, val);
    ValueMissing(Split(query, '&'), k);
  }

  // ----------------------------------------------------------- the listen type

  lemma SwitchMeans(noTcp: Option<string>, noUdp: Option<string>)
    ensures var l := ListenTypeOf(noTcp, noUdp);
            && l in {None, Some("ALL"), Some("TCP"), Some("UDP")}
            && (noTcp.None? && noUdp.None? ==> l == None)
            && (noTcp.Some? || noUdp.Some? ==>
                (l in {Some("ALL"), Some("TCP")} <==> noTcp != Some("1")) &&
                (l in {Some("ALL"), Some("UDP")} <==> noUdp != Some("1")))
  {
    var all, tcp, udp := "ALL", "TCP", "UDP";
    assert all[0] == 'A' && tcp[0] == 'T' && udp[0] == 'U';
  }

  /**
   A protocol is on unless its switch says "1", also when only the other switch is there; without
   either switch, and with both off, the listen type is unset.
   */
  lemma {:induction false} ListenTypeMeans(kind: string, query: string)
    requires Clear(query)
    ensures var pieces, l := Split(query, '&'), ReadOptions(kind, query).listenType;
            && l in {None, Some("ALL"), Some("TCP"), Some("UDP")}
            && (!Named(pieces, "notcp") && !Named(pieces, "noudp") ==> l == None)
            && (Named(pieces, "notcp") || Named(pieces, "noudp") ==>
                (l in {Some("ALL"), Some("TCP")} <==> "notcp=1" !in pieces) &&
                (l in {Some("ALL"), Some("UDP")} <==> "noudp=1" !in pieces))
  {
    hide EntriesOf, ListenTypeOf, Lookup, Named, Split, DistinctNames, ScanPieces;
    var pieces := Split(query, '&');
    var noTcp, noUdp := Lookup(EntriesOf(pieces), NoTcp), Lookup(EntriesOf(pieces), NoUdp);
    SwitchNames();
    ValueRead(pieces, NoTcp, "1");
    ValueRead(pieces, NoUdp, "1");
    ValueMissing(pieces, NoTcp);
    ValueMissing(pieces, NoUdp);
    SwitchMeans(noTcp, noUdp);
    ListenTypeRead(kind, query);
  }

  lemma SwitchNames()
    ensures NameOf(NoTcp) + "=" + "1" == "notcp=1" && NameOf(NoUdp) + "=" + "1" == "noudp=1"
    ensures NameOf(NoTcp) == "notcp" && NameOf(NoUdp) == "noudp"
  {
  }

  lemma {:induction false} ListenTypeRead(kind: string, query: string)
    requires Clear(query)
    ensures var es := EntriesOf(Split(query, '&'));
            ReadOptions(kind, query).listenType == ListenTypeOf(Lookup(es, NoTcp), Lookup(es, NoUdp))
  {
    ReadByValues(kind, query);
    hide EntriesOf, ListenTypeOf, Lookup, Split, DistinctNames, ScanPieces, ReadOptions;
  }

  // ------------------------------------------------------------- the log level

  /** The same letters, in either case. */
  predicate SameLetters(s: string, t: string) {
    |s| == |t| && forall i :: 0 <= i < |s| ==> s[i] == t[i] || ('A' <= s[i] <= 'Z' && s[i] as int + 32 == t[i] as int)
  }

  predicate IsAscii(s: string) {
    forall i :: 0 <= i < |s| ==> s[i] < '\U{80}'
  }

  lemma {:induction false} LowerStep(s: string)
    requires IsAscii(s) && s != ""
    ensures ToLower(s) == [if 'A' <= s[0] <= 'Z' then (s[0] as int + 32) as char else s[0]] + ToLower(s[1..])
  {
    assert |s| >= 2 ==> s[..2][0] == s[0];
    assert |s| >= 3 ==> s[..3][0] == s[0];
  }

  lemma SameStep(s: string, t: string)
    requires s != "" && t != ""
    ensures SameLetters(s, t) <==>
            (s[0] == t[0] || ('A' <= s[0] <= 'Z' && s[0] as int + 32 == t[0] as int)) && SameLetters(s[1..], t[1..])
  {
    assert s == [s[0]] + s[1..] && t == [t[0]] + t[1..];
  }

  lemma {:induction false} LowerMeans(s: string, t: string)
    requires IsAscii(s) && forall i :: 0 <= i < |t| ==> 'a' <= t[i] <= 'z'
    ensures ToLower(s) == t <==> SameLetters(s, t)
  {
    if s == "" {
    } else if t == "" {
      LowerStep(s);
    } else {
      LowerStep(s);
      SameStep(s, t);
      LowerMeans(s[1..], t[1..]);
      hide ToLower, SameLetters;
      var first := if 'A' <= s[0] <= 'Z' then (s[0] as int + 32) as char else s[0];
      HeadAndTail(first, ToLower(s[1..]), t);
    }
  }

  lemma HeadAndTail(c: char, rest: string, t: string)
    requires t != ""
    ensures [c] + rest == t <==> c == t[0] && rest == t[1..]
  {
    assert ([c] + rest)[1..] == rest;
    assert t == [t[0]] + t[1..];
  }

  const LEVELS := {"debug", "info", "warn", "error", "event", "none"}

  lemma LevelsAreLower(level: string)
    requires level in LEVELS
    ensures level != "" && forall i :: 0 <= i < |level| ==> 'a' <= level[i] <= 'z'
  {
  }

  lemma LevelMeans(val: string)
    requires IsAscii(val)
    ensures forall level :: level in LEVELS ==> (LogLevelOf(val) == level <==> SameLetters(val, level))
    ensures LogLevelOf(val) in LEVELS + {""}
  {
    forall level | level in LEVELS ensures LogLevelOf(val) == level <==> SameLetters(val, level) {
      LevelsAreLower(level);
      LowerMeans(val, level);
    }
  }

  /** The log level is the known one with the value's letters in either case, and otherwise the empty one. */
  lemma LogReads(kind: string, query: string, val: string)
    requires Clear(query) && Has(query, "log", val) && IsAscii(val)
    ensures var level := ReadOptions(kind, query).logLevel;
            level in LEVELS + {""} && forall l :: l in LEVELS ==> (level == l <==> SameLetters(val, l))
  {
    hide LogLevelOf, ReadOptions, Clear, Has, SameLetters;
    FieldRead(kind, query, Log, val);
    hide NameOf;
    LevelMeans(val);
  }

  // ------------------------------------------------------- paths and addresses

  /** What a path or source address reads as: what it spells, or itself when it is malformed. */
  predicate PathMeans(val: string, read: Option<string>) {
    read.Some? &&
    (QueryEscape.Spells(val, read.value) ||
     (read.value == val && exists i :: 0 <= i < |val| && val[i] == '%' && !QueryEscape.EscapeAt(val, i)))
  }

  lemma DecodedMeans(val: string)
    ensures PathMeans(val, Some(Decoded(val)))
  {
    QueryEscape.MalformedExactly(val);
    QueryEscape.UnescapeMeans(val, Decoded(val));
    hide QueryEscape.Unescape, QueryEscape.Spells, QueryEscape.EscapeAt;
  }

  lemma PathNamed(kind: string, query: string, k: Key, name: string, val: string)
    requires Clear(query) && k in {Crt, KeyFile, Dial} && NameOf(k) == name && Has(query, name, val)
    ensures var o := ReadOptions(kind, query);
            PathMeans(val, if k == Crt then o.certPath else if k == KeyFile then o.keyPath else o.dial)
  {
    hide ReadOptions, Clear, Has, NameOf, PathMeans, Decoded;
    FieldRead(kind, query, k, val);
    DecodedMeans(val);
  }

  lemma PathsRead(kind: string, query: string, val: string)
    requires Clear(query)
    ensures Has(query, "crt", val) ==> PathMeans(val, ReadOptions(kind, query).certPath)
    ensures Has(query, "key", val) ==> PathMeans(val, ReadOptions(kind, query).keyPath)
    ensures Has(query, "dial", val) ==> PathMeans(val, ReadOptions(kind, query).dial)
  {
    hide ReadOptions, Clear, Has, PathMeans, NumberMeans, SmallMeans, ModeMeans, FlagMeans;
    if Has(query, "crt", val) {
      PathNamed(kind, query, Crt, "crt", val);
    }
    if Has(query, "key", val) {
      PathNamed(kind, query, KeyFile, "key", val);
    }
    if Has(query, "dial", val) {
      PathNamed(kind, query, Dial, "dial", val);
    }
  }

  /** A path without '%' and '+' is read as it stands. */
  lemma {:induction false} PlainSpellsItself(val: string)
    requires forall i :: 0 <= i < |val| ==> val[i] != '%' && val[i] != '+'
    ensures QueryEscape.Spells(val, val)
  {
    if val != "" {
      PlainSpellsItself(val[1..]);
    }
  }

  // ------------------------------------------------------------------- numbers

  /** A number field holds the 64-bit integer that its value denotes, or nothing. */
  ghost predicate NumberMeans(val: string, read: Option<int>) {
    forall n :: read == Some(n) <==> Decimal.IsInt64(n) && Decimal.Denotes(val, n)
  }

  lemma ParsedMeans(val: string)
    ensures NumberMeans(val, Decimal.Parse(val))
  {
    hide Decimal.Parse, Decimal.Denotes;
    forall n ensures Decimal.Parse(val) == Some(n) <==> Decimal.IsInt64(n) && Decimal.Denotes(val, n) {
      Decimal.ParseMeans(val, n);
    }
  }

  lemma NumberNamed(kind: string, query: string, k: Key, name: string, val: string)
    requires Clear(query) && k in {Min, Max, Rate, Slot} && NameOf(k) == name && Has(query, name, val)
    ensures var o := ReadOptions(kind, query);
            NumberMeans(val,
                        if k == Min then o.min else if k == Max then o.max else if k == Rate then o.rate else o.slot)
  {
    hide ReadOptions, Clear, Has, NameOf, NumberMeans, Decimal.Parse;
    FieldRead(kind, query, k, val);
    ParsedMeans(val);
  }

  lemma NumbersReadText(kind: string, query: string, val: string)
    requires Clear(query)
    ensures Has(query, "min", val) ==> NumberMeans(val, ReadOptions(kind, query).min)
    ensures Has(query, "max", val) ==> NumberMeans(val, ReadOptions(kind, query).max)
    ensures Has(query, "rate", val) ==> NumberMeans(val, ReadOptions(kind, query).rate)
    ensures Has(query, "slot", val) ==> NumberMeans(val, ReadOptions(kind, query).slot)
  {
    hide ReadOptions, Clear, Has, PathMeans, NumberMeans, SmallMeans, ModeMeans, FlagMeans;
    if Has(query, "min", val) {
      NumberNamed(kind, query, Min, "min", val);
    }
    if Has(query, "max", val) {
      NumberNamed(kind, query, Max, "max", val);
    }
    if Has(query, "rate", val) {
      NumberNamed(kind, query, Rate, "rate", val);
    }
    if Has(query, "slot", val) {
      NumberNamed(kind, query, Slot, "slot", val);
    }
  }

  /** The pool type and the blocking are numbers from 0 to 3. */
  ghost predicate SmallMeans(val: string, read: Option<int>) {
    forall n :: read == Some(n) <==> 0 <= n <= 3 && Decimal.Denotes(val, n)
  }

  lemma RangedMeans(val: string)
    ensures SmallMeans(val, Ranged(val))
  {
    hide Decimal.Parse, Decimal.Denotes;
    forall n ensures Ranged(val) == Some(n) <==> 0 <= n <= 3 && Decimal.Denotes(val, n) {
      Decimal.ParseMeans(val, n);
    }
  }

  lemma SmallNamed(kind: string, query: string, k: Key, name: string, val: string)
    requires Clear(query) && k in {Pool, Block} && NameOf(k) == name && Has(query, name, val)
    ensures var o := ReadOptions(kind, query);
            SmallMeans(val, if k == Pool then o.poolType else o.block)
  {
    hide ReadOptions, Clear, Has, NameOf, SmallMeans, Ranged;
    FieldRead(kind, query, k, val);
    RangedMeans(val);
  }

  lemma SmallNumbersRead(kind: string, query: string, val: string)
    requires Clear(query)
    ensures Has(query, "type", val) ==> SmallMeans(val, ReadOptions(kind, query).poolType)
    ensures Has(query, "block", val) ==> SmallMeans(val, ReadOptions(kind, query).block)
  {
    hide ReadOptions, Clear, Has, PathMeans, NumberMeans, SmallMeans, ModeMeans, FlagMeans;
    if Has(query, "type", val) {
      SmallNamed(kind, query, Pool, "type", val);
    }
    if Has(query, "block", val) {
      SmallNamed(kind, query, Block, "block", val);
    }
  }

  // ------------------------------------------------------------------- choices

  /** The run mode knows the digits 0 to 2. */
  predicate ModeMeans(val: string, mode: Option<int>) {
    match mode
    case Some(n) => (n == 0 && val == "0") || (n == 1 && val == "1") || (n == 2 && val == "2")
    case None => val !in {"0", "1", "2"}
  }

  predicate FlagMeans(val: string, flag: Option<bool>) {
    match flag
    case Some(b) => val == if b then "1" else "0"
    case None => val != "0" && val != "1"
  }

  predicate IsChoice(val: string) {
    val == "0" || val == "1" || val == "2"
  }

  lemma ChoicesMean(val: string)
    ensures ModeMeans(val, Selector(val)) && FlagMeans(val, Flag(val))
    ensures Selector(val).Some? <==> IsChoice(val)
  {
  }

  lemma ChoiceNamed(kind: string, query: string, k: Key, name: string, val: string)
    requires Clear(query) && k in {Mode, Proxy} && NameOf(k) == name && Has(query, name, val)
    ensures var o := ReadOptions(kind, query);
            if k == Mode then ModeMeans(val, o.mode) else FlagMeans(val, o.proxy)
  {
    hide ReadOptions, Clear, Has, NameOf, ModeMeans, FlagMeans, Selector, Flag, IsChoice;
    FieldRead(kind, query, k, val);
    ChoicesMean(val);
  }

  /** Run mode and proxy flag know their own digits only. */
  lemma ChoicesRead(kind: string, query: string, val: string)
    requires Clear(query)
    ensures Has(query, "mode", val) ==> ModeMeans(val, ReadOptions(kind, query).mode)
    ensures Has(query, "proxy", val) ==> FlagMeans(val, ReadOptions(kind, query).proxy)
  {
    hide ReadOptions, Clear, Has, PathMeans, NumberMeans, SmallMeans, ModeMeans, FlagMeans;
    if Has(query, "mode", val) {
      ChoiceNamed(kind, query, Mode, "mode", val);
    }
    if Has(query, "proxy", val) {
      ChoiceNamed(kind, query, Proxy, "proxy", val);
    }
  }

  /** So does the TLS mode, which is for servers alone. */
  lemma TlsReads(kind: string, query: string, val: string)
    requires Clear(query) && Has(query, "tls", val)
    ensures ReadOptions(kind, query).tlsMode == if kind == "server" && IsChoice(val) then val else ""
  {
    hide ReadOptions, Clear, Has, ModeMeans, FlagMeans, Selector, Flag, IsChoice;
    FieldRead(kind, query, Tls, val);
    hide NameOf;
    ChoicesMean(val);
  }

  lemma TextNamed(kind: string, query: string, k: Key, name: string, val: string)
    requires Clear(query) && k in {Dns, Sni, Read} && NameOf(k) == name && Has(query, name, val)
    ensures var o := ReadOptions(kind, query);
            (if k == Dns then o.dns else if k == Sni then o.sni else o.read) ==
            if k == Read && val == "" then None else Some(val)
  {
    hide ReadOptions, Clear, Has, NameOf;
    FieldRead(kind, query, k, val);
  }

  /** Read timeout, name server and server name are taken as they stand; an empty timeout is none. */
  lemma TextsReadAsTheyStand(kind: string, query: string, val: string)
    requires Clear(query)
    ensures Has(query, "dns", val) ==> ReadOptions(kind, query).dns == Some(val)
    ensures Has(query, "sni", val) ==> ReadOptions(kind, query).sni == Some(val)
    ensures Has(query, "read", val) ==> ReadOptions(kind, query).read == if val == "" then None else Some(val)
  {
    hide ReadOptions, Clear, Has, PathMeans, NumberMeans, SmallMeans, ModeMeans, FlagMeans;
    if Has(query, "dns", val) {
      TextNamed(kind, query, Dns, "dns", val);
    }
    if Has(query, "sni", val) {
      TextNamed(kind, query, Sni, "sni", val);
    }
    if Has(query, "read", val) {
      TextNamed(kind, query, Read, "read", val);
    }
  }

  /** A field whose name no piece has keeps its default. */
  lemma {:induction false} MissingReadsDefault(kind: string, query: string, k: Key)
    requires Clear(query) && k != Unknown && !Named(Split(query, '&'), NameOf(k))
    ensures var o := ReadOptions(kind, query);
            match k
            case Tls => o.tlsMode == ""
            case Log => o.logLevel == ""
            case Crt => o.certPath == None
            case KeyFile => o.keyPath == None
            case Min => o.min == None
            case Max => o.max == None
            case Mode => o.mode == None
            case Read => o.read == None
            case Rate => o.rate == None
            case Slot => o.slot == None
            case Proxy => o.proxy == None
            case Dial => o.dial == None
            case Dns => o.dns == None
            case Pool => o.poolType == None
            case Sni => o.sni == None
            case Block => o.block == None
            case _ => true
  {
    hide ReadOptions, Clear, Named, NameOf;
    FieldRead(kind, query, k, "");
  }

  // -------------------------------------------------------------- names twice

  /** With a name twice the last value counts, but a number that cannot be read leaves the earlier one. */
  lemma {:induction false} LastCounts(kind: string, pieces: seq<string>, val: string)
    ensures ScanPieces(kind, pieces + ["dns=" + val]).o.dns == Some(val)
    ensures var before, after := ScanPieces(kind, pieces).o.min, ScanPieces(kind, pieces + ["min=" + val]).o.min;
            (after == before && NumberMeans(val, None)) || NumberMeans(val, after)
  {
    hide Decimal.Parse, ScanPieces, NumberMeans;
    ParsedMeans(val);
    AddedPiece(kind, pieces, Dns, val);
    AddedPiece(kind, pieces, Min, val);
    assert NameOf(Dns) + "=" + val == "dns=" + val && NameOf(Min) + "=" + val == "min=" + val;
  }

  lemma {:induction false} AddedPiece(kind: string, pieces: seq<string>, k: Key, val: string)
    requires k != Unknown
    ensures ScanPieces(kind, pieces + [NameOf(k) + "=" + val]) == SetParam(kind, ScanPieces(kind, pieces), k, val)
  {
    var piece := NameOf(k) + "=" + val;
    assert (pieces + [piece])[..|pieces|] == pieces;
    KeyOfName(k);
    NamesArePlain(k, '=');
    CutOfConcat(NameOf(k), '=', val);
    hide SetParam, NameOf, KeyOf;
    assert piece == NameOf(k) + ['='] + val;
  }
}
