/**
 When the order of a URL's parameters matters to the parser. The options never depend on it; the
 password does, because the parser cuts at the first '@' before it looks for the query, and without
 a scheme in front so does everything else, because the parser cuts at the first "://" before that.
 */
module ParameterOrder {
  import opened Wrappers
  import opened Text
  import opened HostPort
  import opened TunnelOptions
  import opened TunnelUrl
  import Decimal

  /** The URL with these parameters behind its '?'. */
  function WithQuery(front: string, pieces: seq<string>): string {
    front + Tail('?', Some(Join(pieces, '&')))
  }

  /** What the front holds behind its scheme. */
  function Behind(front: string): string {
    ReadKind(front).1
  }

  predicate HasScheme(s: string) {
    IndexOfText(s, "://") != -1
  }

  /** The front has a scheme, or there is none anywhere. */
  predicate SchemeInFront(front: string, pieces: seq<string>) {
    HasScheme(front) || forall x :: x in pieces ==> !HasScheme(x)
  }

  // ------------------------------------------------------------- the scheme

  lemma {:induction false} FirstOccurrenceStays(front: string, p: string, more: string)
    requires IndexOfText(front, p) != -1 && p != ""
    ensures IndexOfText(front + more, p) == IndexOfText(front, p)
  {
    var i := IndexOfText(front, p);
    var text := front + more;
    assert text[i..] == front[i..] + more;
    forall k | 0 <= k < i ensures !(p <= text[k..]) {
      assert front[k..][..|p|] == text[k..][..|p|];
    }
  }

  predicate Nowhere(s: string, p: string) {
    forall k :: 0 <= k < |s| ==> !(p <= s[k..])
  }

  lemma {:induction false} NowhereIsMinusOne(s: string, p: string)
    requires p != ""
    ensures IndexOfText(s, p) == -1 <==> Nowhere(s, p)
  {
    hide IndexOfText;
    var i := IndexOfText(s, p);
    assert i >= 0 ==> p <= s[i..];
  }

  /** A text without the separator cannot stand across it. */
  lemma NowhereAt(a: string, c: char, b: string, p: string, k: nat)
    requires p != "" && c !in p && Nowhere(a, p) && k <= |a|
    ensures !(p <= (a + [c] + b)[k..])
  {
    var s := a + [c] + b;
    if k + |p| <= |a| {
      assert k < |a| && s[k..][..|p|] == a[k..][..|p|];
    } else {
      assert s[k..][|a| - k] == c;
      assert |a| - k < |p| ==> p[|a| - k] in p;
    }
  }

  lemma NowhereAcross(a: string, c: char, b: string, p: string)
    requires p != "" && c !in p && Nowhere(a, p) && Nowhere(b, p)
    ensures Nowhere(a + [c] + b, p)
  {
    var s := a + [c] + b;
    forall k | 0 <= k < |s| ensures !(p <= s[k..]) {
      if k > |a| {
        assert s[k..] == b[k - |a| - 1..];
      } else {
        NowhereAt(a, c, b, p, k);
      }
    }
  }

  lemma {:induction false} NowhereInJoin(pieces: seq<string>, p: string)
    requires p != "" && '&' !in p && forall x :: x in pieces ==> Nowhere(x, p)
    ensures Nowhere(Join(pieces, '&'), p)
  {
    if |pieces| > 1 {
      hide Nowhere;
      NowhereInJoin(pieces[1..], p);
      NowhereAcross(pieces[0], '&', Join(pieces[1..], '&'), p);
    }
  }

  /** A scheme in front, or none anywhere, is read without the query. */
  lemma {:induction false} KindStays(front: string, pieces: seq<string>)
    requires SchemeInFront(front, pieces)
    ensures ReadKind(WithQuery(front, pieces)) ==
            (ReadKind(front).0, Behind(front) + Tail('?', Some(Join(pieces, '&'))))
  {
    hide KindOf, IndexOfText, Join, Nowhere;
    var more := Tail('?', Some(Join(pieces, '&')));
    if HasScheme(front) {
      var i := IndexOfText(front, "://");
      FirstOccurrenceStays(front, "://", more);
      assert (front + more)[..i] == front[..i] && (front + more)[i + 3..] == front[i + 3..] + more;
    } else {
      forall x | x in pieces ensures Nowhere(x, "://") {
        NowhereIsMinusOne(x, "://");
      }
      NowhereInJoin(pieces, "://");
      NowhereIsMinusOne(front, "://");
      NowhereAcross(front, '?', Join(pieces, '&'), "://");
      assert front + more == front + ['?'] + Join(pieces, '&');
      NowhereIsMinusOne(front + more, "://");
    }
  }

  // ------------------------------------------------- no '@' to be cut at

  lemma PasswordStays(rest: string, more: string)
    requires '@' in rest || '@' !in more
    ensures ReadPassword(rest + more) == (ReadPassword(rest).0, ReadPassword(rest).1 + more)
  {
    hide CutAt;
    if '@' in rest {
      var user := CutAt(rest, '@');
      CutOfConcat(user.before, '@', user.after + more);
      assert rest + more == user.before + ['@'] + (user.after + more);
    }
  }

  /** The front ends the password, or no parameter holds an '@'. */
  predicate AtInFront(front: string, pieces: seq<string>) {
    '@' in Behind(front) || forall x :: x in pieces ==> '@' !in x
  }

  lemma {:induction false} JoinLacks(pieces: seq<string>)
    requires forall x :: x in pieces ==> '@' !in x
    ensures '@' !in Tail('?', Some(Join(pieces, '&')))
  {
    JoinHas(pieces, '&', '@');
  }

  lemma {:induction false} QueryIsRead(front: string, pieces: seq<string>)
    requires SchemeInFront(front, pieces) && AtInFront(front, pieces) && '?' !in ReadPassword(Behind(front)).1
    requires pieces != [] && forall x :: x in pieces ==> '&' !in x
    ensures var (password, text) := ReadPassword(Behind(front));
            var body, kind := ReadBody(text), ReadKind(front).0;
            var (target, extend) := ReadPath(body.path);
            ParseConfig(WithQuery(front, pieces)) ==
            Config(kind, password, ParseAddressPort(body.host), target, extend, Finish(ScanPieces(kind, pieces)))
  {
    hide ReadKind, ReadPassword, ReadPath, ParseAddressPort, ScanPieces, Finish, Tail, Join, SchemeInFront;
    if '@' !in Behind(front) {
      JoinLacks(pieces);
    }
    KindStays(front, pieces);
    PasswordStays(Behind(front), Tail('?', Some(Join(pieces, '&'))));
    CutOfTail(ReadPassword(Behind(front)).1, '?', Some(Join(pieces, '&')));
    SplitOfJoin(pieces, '&');
  }

  lemma SameMembers(xs: seq<string>, ys: seq<string>)
    requires multiset(xs) == multiset(ys)
    ensures forall x :: x in xs <==> x in ys
    ensures |xs| == |ys|
  {
    assert |multiset(xs)| == |xs| && |multiset(ys)| == |ys|;
    forall x ensures x in xs <==> x in ys {
      assert x in multiset(xs) <==> x in multiset(ys);
    }
  }

  /**
   Permuting parameters with distinct names changes nothing but the stored command line, if no '@'
   stands in a parameter or one stands before them, and no scheme stands in a parameter alone.
   */
  lemma ParametersMayBePermuted(front: string, xs: seq<string>, ys: seq<string>)
    requires SchemeInFront(front, xs) && AtInFront(front, xs) && '?' !in ReadPassword(Behind(front)).1
    requires multiset(xs) == multiset(ys) && DistinctNames(xs) && DistinctNames(ys)
    requires xs != [] && forall x :: x in xs ==> '&' !in x
    ensures var s, t := ParseUrl(WithQuery(front, xs)), ParseUrl(WithQuery(front, ys));
            s.(commandLine := t.commandLine) == t
  {
    hide ReadKind, ReadPassword, ReadBody, ReadPath, ParseAddressPort, ScanPieces, Finish, DistinctNames, WithQuery,
         ParseConfig,
      HasScheme, Behind;
    SameMembers(xs, ys);
    QueryIsRead(front, xs);
    QueryIsRead(front, ys);
    OrderDoesNotMatter(ReadKind(front).0, xs, ys);
  }

  // --------------------------------------------- an '@' among the parameters

  function PasswordOf(front: string, pieces: seq<string>): Option<string> {
    ParseConfig(WithQuery(front, pieces)).password
  }

  /** The part of a parameter that the password takes, when it is cut there. */
  function Taken(piece: string): string {
    CutAt(piece, '@').before
  }

  /** Every parameter would give the password the same end. */
  predicate SameTaken(pieces: seq<string>) {
    forall x :: x in pieces ==> '@' in x && Taken(x) == Taken(pieces[0])
  }

  lemma {:induction false} PasswordIsRead(front: string, pieces: seq<string>)
    requires SchemeInFront(front, pieces)
    ensures PasswordOf(front, pieces) == ReadPassword(Behind(front) + Tail('?', Some(Join(pieces, '&')))).0
  {
    hide ReadKind, ReadPassword, ReadBody, ReadPath, ParseAddressPort, ReadOptions, Tail, Join, SchemeInFront,
         WithQuery, Behind;
    KindStays(front, pieces);
  }

  lemma PasswordBefore(text: string, before: string, rest: string)
    requires text == before + ['@'] + rest && before != "" && '@' !in before
    ensures ReadPassword(text).0 == Some(before)
  {
    hide CutAt;
    CutOfConcat(before, '@', rest);
  }

  lemma CutPiece(piece: string) returns (rest: string)
    requires '@' in piece
    ensures piece == Taken(piece) + ['@'] + rest && '@' !in Taken(piece)
  {
    rest := CutAt(piece, '@').after;
  }

  /** The text behind the front, when its first parameters are known. */
  lemma QueryText(front: string, before: string, rest: string)
    ensures Behind(front) + Tail('?', Some(before + ['@'] + rest)) == (Behind(front) + "?" + before) + ['@'] + rest
  {
    hide Behind;
    var b := Behind(front);
    assert b + (['?'] + (before + ['@'] + rest)) == (b + ['?'] + before) + ['@'] + rest;
  }

  lemma JoinCons(pieces: seq<string>) returns (more: string)
    requires pieces != []
    ensures Join(pieces, '&') == pieces[0] + more
    ensures |pieces| > 1 ==> more == ['&'] + Join(pieces[1..], '&')
  {
    more := if |pieces| == 1 then "" else ['&'] + Join(pieces[1..], '&');
    if |pieces| > 1 {
      assert pieces[0] + ['&'] + Join(pieces[1..], '&') == pieces[0] + (['&'] + Join(pieces[1..], '&'));
    }
  }

  /** An '@' in the first parameter ends the password there. */
  lemma CutInFirst(front: string, pieces: seq<string>)
    requires SchemeInFront(front, pieces) && '@' !in Behind(front) && pieces != [] && '@' in pieces[0]
    ensures PasswordOf(front, pieces) == Some(Behind(front) + "?" + Taken(pieces[0]))
  {
    hide PasswordOf, SchemeInFront, Behind, Taken, Join, Tail, ReadPassword;
    PasswordIsRead(front, pieces);
    var more := JoinCons(pieces);
    var rest := CutPiece(pieces[0]);
    var t := Taken(pieces[0]);
    assert (t + ['@'] + rest) + more == t + ['@'] + (rest + more);
    QueryText(front, t, rest + more);
    PasswordBefore(Behind(front) + Tail('?', Some(t + ['@'] + (rest + more))), Behind(front) + "?" + t, rest + more);
  }

  /** One in the second but not in the first takes the first along. */
  lemma CutInSecond(front: string, pieces: seq<string>)
    requires SchemeInFront(front, pieces) && '@' !in Behind(front) && |pieces| >= 2 && '@' !in pieces[0] &&
             '@' in pieces[1]
    ensures PasswordOf(front, pieces) == Some(Behind(front) + "?" + (pieces[0] + ['&'] + Taken(pieces[1])))
  {
    hide PasswordOf, SchemeInFront, Behind, Taken, Join, Tail, ReadPassword;
    PasswordIsRead(front, pieces);
    var others := JoinCons(pieces);
    var more := JoinCons(pieces[1..]);
    var rest := CutPiece(pieces[1]);
    var p, t := pieces[0], Taken(pieces[1]);
    assert p + (['&'] + ((t + ['@'] + rest) + more)) == (p + ['&'] + t) + ['@'] + (rest + more);
    QueryText(front, p + ['&'] + t, rest + more);
    PasswordBefore(Behind(front) + Tail('?', Some((p + ['&'] + t) + ['@'] + (rest + more))),
                   Behind(front) + "?" + (p + ['&'] + t), rest + more);
  }

  function ToFront(xs: seq<string>, i: nat): seq<string>
    requires i < |xs|
  {
    [xs[i]] + xs[..i] + xs[i + 1..]
  }

  lemma ToFrontPermutes(xs: seq<string>, i: nat)
    requires i < |xs|
    ensures multiset(ToFront(xs, i)) == multiset(xs)
    ensures |ToFront(xs, i)| == |xs| && ToFront(xs, i)[0] == xs[i] && (i > 0 ==> ToFront(xs, i)[1] == xs[0])
  {
    assert xs == xs[..i] + [xs[i]] + xs[i + 1..];
  }

  lemma SchemeOfPermuted(front: string, xs: seq<string>, ys: seq<string>)
    requires multiset(xs) == multiset(ys) && SchemeInFront(front, xs)
    ensures SchemeInFront(front, ys)
  {
    SameMembers(xs, ys);
  }

  /** Two parameters, one of them with an '@': which comes first decides the password. */
  lemma SwapChangesPassword(front: string, p: string, q: string)
    requires SchemeInFront(front, [p, q]) && '@' !in Behind(front) && '@' in p && '@' !in q
    ensures PasswordOf(front, [p, q]) != PasswordOf(front, [q, p])
  {
    hide PasswordOf, SchemeInFront, Behind, Taken;
    assert SchemeInFront(front, [q, p]) by {
      SchemeOfPermuted(front, [p, q], [q, p]);
    }
    CutInFirst(front, [p, q]);
    CutInSecond(front, [q, p]);
    var b, t := Behind(front), Taken(p);
    assert |b + "?" + (q + ['&'] + t)| == |b + "?" + t| + |q| + 1;
  }

  /** A name server with an '@' is such a parameter. */
  lemma NameServerWithAt()
    ensures PasswordOf("client://h:1", ["dns=a@b", "log=info"]) != PasswordOf("client://h:1", ["log=info", "dns=a@b"])
  {
    hide HasScheme, Behind, PasswordOf;
    PlainFront();
    assert "dns=a@b"[5] == '@';
    SwapChangesPassword("client://h:1", "dns=a@b", "log=info");
  }

  lemma PlainFront()
    ensures HasScheme("client://h:1") && Behind("client://h:1") == "h:1"
  {
    assert "client" + "://" + "h:1" == "client://h:1";
    KindReads("client", "h:1");
    hide IndexOfText, ReadKind;
    SchemeThere("client", "h:1");
  }

  lemma SchemeThere(protocol: string, rest: string)
    ensures HasScheme(protocol + "://" + rest)
  {
    hide IndexOfText;
    var text := protocol + "://" + rest;
    NowhereIsMinusOne(text, "://");
    assert text[|protocol|..] == "://" + rest;
    assert !Nowhere(text, "://");
  }

  lemma TwoOrders(front: string, xs: seq<string>, p: string, q: string) returns (ys: seq<string>, zs: seq<string>)
    requires SchemeInFront(front, xs) && '@' !in Behind(front)
    requires p in xs && q in xs && '@' in p && ('@' !in q || Taken(q) != Taken(p))
    ensures multiset(ys) == multiset(xs) == multiset(zs) && PasswordOf(front, ys) != PasswordOf(front, zs)
  {
    hide PasswordOf, SchemeInFront, Behind, Taken, ToFront;
    var i :| 0 <= i < |xs| && xs[i] == p;
    ys := ToFront(xs, i);
    ToFrontPermutes(xs, i);
    SameMembers(xs, ys);
    var j :| 0 <= j < |ys| && ys[j] == q;
    zs := ToFront(ys, j);
    ToFrontPermutes(ys, j);
    SchemeOfPermuted(front, xs, ys);
    SchemeOfPermuted(front, xs, zs);
    CutInFirst(front, ys);
    var b, t := Behind(front), Taken(p);
    if '@' in q {
      CutInFirst(front, zs);
      assert (b + "?" + t)[|b| + 1..] == t && (b + "?" + Taken(q))[|b| + 1..] == Taken(q);
    } else {
      CutInSecond(front, zs);
      assert |b + "?" + (q + ['&'] + t)| == |b + "?" + t| + |q| + 1;
    }
  }

  lemma FixedPassword(front: string, xs: seq<string>, ys: seq<string>)
    requires SchemeInFront(front, xs) && xs != [] && multiset(xs) == multiset(ys)
    requires AtInFront(front, xs) || SameTaken(xs)
    ensures PasswordOf(front, xs) == PasswordOf(front, ys)
  {
    hide PasswordOf, SchemeInFront, Behind, Taken;
    SameMembers(xs, ys);
    SchemeOfPermuted(front, xs, ys);
    PasswordIsRead(front, xs);
    PasswordIsRead(front, ys);
    if AtInFront(front, xs) {
      if '@' !in Behind(front) {
        JoinLacks(xs);
        JoinLacks(ys);
      }
      hide Join, Tail, ReadPassword;
      PasswordStays(Behind(front), Tail('?', Some(Join(xs, '&'))));
      PasswordStays(Behind(front), Tail('?', Some(Join(ys, '&'))));
    } else {
      assert xs[0] in xs && ys[0] in ys;
      CutInFirst(front, xs);
      CutInFirst(front, ys);
    }
  }

  /**
   The password is the same for every order of the parameters exactly when an '@' stands before them,
   none stands in any of them, or all hold one behind the same text.
   */
  lemma PasswordIsFixedExactly(front: string, xs: seq<string>)
    requires SchemeInFront(front, xs) && xs != []
    ensures (forall ys :: multiset(ys) == multiset(xs) ==> PasswordOf(front, ys) == PasswordOf(front, xs))
            <==> AtInFront(front, xs) || SameTaken(xs)
  {
    hide PasswordOf, SchemeInFront, Behind, Taken;
    if AtInFront(front, xs) || SameTaken(xs) {
      forall ys | multiset(ys) == multiset(xs) ensures PasswordOf(front, ys) == PasswordOf(front, xs) {
        FixedPassword(front, xs, ys);
      }
    } else {
      var x :| x in xs && '@' in x;
      var y :| y in xs && !('@' in y && Taken(y) == Taken(xs[0]));
      var p, q := if '@' in xs[0] then xs[0] else x, if '@' in xs[0] then y else xs[0];
      assert xs[0] in xs;
      var ys, zs := TwoOrders(front, xs, p, q);
    }
  }

  // --------------------------------------------- a scheme inside a parameter

  /** Behind a text without the pattern, its first occurrence is the one of the rest. */
  lemma {:induction false} OccursBehind(a: string, c: char, b: string, p: string)
    requires p != "" && c !in p && Nowhere(a, p) && IndexOfText(b, p) != -1
    ensures IndexOfText(a + [c] + b, p) == |a| + 1 + IndexOfText(b, p)
  {
    hide IndexOfText;
    var s, i := a + [c] + b, IndexOfText(b, p);
    assert s[|a| + 1 + i..] == b[i..];
    forall k | 0 <= k < |a| + 1 + i ensures !(p <= s[k..]) {
      if k > |a| {
        assert s[k..] == b[k - |a| - 1..];
      } else {
        NowhereAt(a, c, b, p, k);
      }
    }
    hide Nowhere;
    FirstIsIndex(s, p, |a| + 1 + i);
  }

  lemma {:induction false} FirstIsIndex(s: string, p: string, i: nat)
    requires i <= |s| && p != "" && p <= s[i..] && forall k :: 0 <= k < i ==> !(p <= s[k..])
    ensures IndexOfText(s, p) == i
  {
    hide IndexOfText;
    assert i < |s|;
    var r := IndexOfText(s, p);
    assert r >= 0 ==> p <= s[r..];
  }

  /** The text behind a parameter's scheme. */
  function Inner(p: string): string {
    ReadKind(p).1
  }

  lemma KindNeedsNoQuestion(protocol: string)
    requires '?' in protocol
    ensures KindOf(protocol) == ""
  {
    var client, server := "client", "server";
    assert '?' !in client by { PlainKind(client); }
    assert '?' !in server by { PlainKind(server); }
  }

  lemma PlainKind(s: string)
    requires s == "client" || s == "server"
    ensures '?' !in s
  {
    forall i | 0 <= i < |s| ensures s[i] != '?' {
      assert i == 0 || i == 1 || i == 2 || i == 3 || i == 4 || i == 5;
    }
  }

  lemma QueryIsCut(front: string, text: string)
    requires !HasScheme(front) && HasScheme(text)
    ensures ReadKind(front + ['?'] + text) == ("", Inner(text))
  {
    hide IndexOfText, KindOf;
    NowhereIsMinusOne(front, "://");
    OccursBehind(front, '?', text, "://");
    var s, i := front + ['?'] + text, IndexOfText(text, "://");
    assert s[|front| + 1 + i + 3..] == text[i + 3..];
    assert s[..|front| + 1 + i][|front|] == '?';
    KindNeedsNoQuestion(s[..|front| + 1 + i]);
  }

  lemma FirstIsCut(p: string, more: string)
    requires HasScheme(p)
    ensures HasScheme(p + more) && Inner(p + more) == Inner(p) + more
  {
    hide IndexOfText;
    FirstOccurrenceStays(p, "://", more);
    var i := IndexOfText(p, "://");
    assert (p + more)[i + 3..] == p[i + 3..] + more;
  }

  lemma SecondIsCut(q: string, p: string)
    requires HasScheme(p) && !HasScheme(q)
    ensures HasScheme(q + ['&'] + p) && Inner(q + ['&'] + p) == Inner(p)
  {
    hide IndexOfText;
    NowhereIsMinusOne(q, "://");
    OccursBehind(q, '&', p, "://");
    var s, i := q + ['&'] + p, IndexOfText(p, "://");
    assert s[|q| + 1 + i + 3..] == p[i + 3..];
  }

  lemma TwoPieces(front: string, p: string, q: string)
    ensures WithQuery(front, [p, q]) == front + ['?'] + (p + ['&'] + q)
  {
    assert Join([p, q], '&') == p + ['&'] + q;
    assert front + (['?'] + (p + ['&'] + q)) == front + ['?'] + (p + ['&'] + q);
  }

  /**
   With no scheme in front and one in a parameter, the parser drops all that precedes it: the other
   parameter is read as a part of the tunnel's address, or not at all.
   */
  lemma SchemeIsCut(front: string, p: string, q: string)
    requires !HasScheme(front) && HasScheme(p) && !HasScheme(q)
    ensures ReadKind(WithQuery(front, [p, q])) == ("", Inner(p) + (['&'] + q))
    ensures ReadKind(WithQuery(front, [q, p])) == ("", Inner(p))
  {
    hide HasScheme, Inner, WithQuery, ReadKind;
    TwoPieces(front, p, q);
    TwoPieces(front, q, p);
    assert p + ['&'] + q == p + (['&'] + q);
    FirstIsCut(p, ['&'] + q);
    SecondIsCut(q, p);
    QueryIsCut(front, p + ['&'] + q);
    QueryIsCut(front, q + ['&'] + p);
  }

  /** A text that the cut does not reach stays in front of it. */
  lemma CutBehind(a: string, b: string, c: char)
    requires c !in a
    ensures a <= CutAt(a + b, c).before
  {
    hide CutAt;
    var s, h := a + b, CutAt(a + b, c);
    forall k | 0 <= k < |a| ensures s[k] != c {
      assert s[k] == a[k] && a[k] in a;
    }
    if h.found {
      assert s[|h.before|] == c;
      assert s[..|h.before|] == h.before && s[..|a|] == a;
    }
  }

  lemma CutLacks(s: string, c: char, d: char)
    requires d !in s
    ensures d !in CutAt(s, c).before
  {
    hide CutAt;
  }

  lemma AmpersandTrimmed(p: string)
    requires '&' in p && '[' !in p
    ensures '&' in ParseTrimmed(p).host || '&' in ParseTrimmed(p).port
  {
    hide Decimal.Parse, IndexOf, LastIndexOf, ManyColons, EndsInPort;
    if p[0] == ':' {
      assert p == [p[0]] + p[1..];
    } else if ':' in p {
      ColonsKeep(p, IndexOf(p, ':'));
      ColonsKeep(p, LastIndexOf(p, ':'));
    }
  }

  /** An ampersand of an address text ends up in host or port, unless a bracket cuts it off. */
  lemma AmpersandStays(part: string)
    requires '&' in part && '[' !in part
    ensures '&' in ParseAddressPort(part).host || '&' in ParseAddressPort(part).port
  {
    hide TrimSpace, ParseTrimmed;
    TrimSpaceHas(part, '&');
    TrimSpaceKeeps(part, '[');
    AmpersandTrimmed(TrimSpace(part));
  }

  lemma ColonsKeep(p: string, i: nat)
    requires i < |p| && p[i] == ':' && '&' in p
    ensures '&' in p[..i] || '&' in p[i + 1..]
  {
    assert p == p[..i] + [p[i]] + p[i + 1..];
  }

  /** What the tunnel's section reads as, for a text behind the scheme. */
  function Told(text: string): (Option<string>, Address) {
    var (password, rest) := ReadPassword(text);
    (password, ParseAddressPort(ReadBody(rest).host))
  }

  lemma ToldByUrl(raw: string)
    ensures Told(ReadKind(raw).1) == (ParseConfig(raw).password, ParseConfig(raw).tunnel)
  {
    hide ReadKind, ReadPassword, ReadBody, ReadPath, ReadOptions, ParseAddressPort;
  }

  lemma ToldAlone(a: string)
    requires '@' !in a && '&' !in a
    ensures Told(a).0 == None && '&' !in Told(a).1.host && '&' !in Told(a).1.port
  {
    hide ParseAddressPort, CutAt;
    var q := CutAt(a, '?');
    var h := CutAt(q.before, '/');
    assert '&' !in h.before;
    ParseKeeps(h.before, '&');
  }

  lemma HostKeeps(front: string, q: string)
    requires front != "" && front[|front| - 1] == '&'
    requires '?' !in front && '/' !in front && '[' !in front && '[' !in q
    ensures '&' in ReadBody(front + q).host && '[' !in ReadBody(front + q).host
  {
    hide CutAt;
    CutBehind(front, q, '?');
    CutLacks(front + q, '?', '[');
    var before := CutAt(front + q, '?').before;
    assert before == front + before[|front|..];
    CutBehind(front, before[|front|..], '/');
    CutLacks(before, '/', '[');
    var host := CutAt(before, '/').before;
    assert host[|front| - 1] == '&';
  }

  lemma ToldWithMore(a: string, q: string)
    requires '@' !in a && '?' !in a && '/' !in a && '[' !in a && '[' !in q
    ensures var (password, tunnel) := Told(a + (['&'] + q));
            password != None || '&' in tunnel.host || '&' in tunnel.port
  {
    hide ParseAddressPort, CutAt, ReadBody;
    var text, front := a + (['&'] + q), a + ['&'];
    assert text == front + q && front[|a|] == '&';
    if '@' in text {
      CutBehind(front, q, '@');
      assert CutAt(text, '@').before != "";
    } else {
      HostKeeps(front, q);
      AmpersandStays(ReadBody(text).host);
    }
  }

  /**
   So two parameters can be told apart by their order: with no scheme in front and a plain address
   behind the one in a parameter, swapping the two changes the password or the tunnel's address.
   */
  lemma SwapChangesTunnel(front: string, p: string, q: string)
    requires !HasScheme(front) && HasScheme(p) && !HasScheme(q) && '[' !in q
    requires forall c :: c in Inner(p) ==> c != '@' && c != '&' && c != '?' && c != '/' && c != '['
    ensures var s, t := ParseConfig(WithQuery(front, [p, q])), ParseConfig(WithQuery(front, [q, p]));
            s.password != t.password || s.tunnel != t.tunnel
  {
    hide HasScheme, Inner, WithQuery, ReadKind, ParseConfig, Told;
    SchemeIsCut(front, p, q);
    ToldByUrl(WithQuery(front, [p, q]));
    ToldByUrl(WithQuery(front, [q, p]));
    ToldAlone(Inner(p));
    ToldWithMore(Inner(p), q);
  }

  lemma SchemeNowhere(s: string)
    requires ':' !in s
    ensures !HasScheme(s)
  {
    hide IndexOfText;
    NowhereIsMinusOne(s, "://");
    forall k | 0 <= k < |s| ensures !("://" <= s[k..]) {
      assert s[k..][0] == s[k];
    }
  }

  lemma LogIsPlain()
    ensures ':' !in "log=info" && '[' !in "log=info"
  {
    var q := "log=info";
    forall i | 0 <= i < |q| ensures q[i] != ':' && q[i] != '[' {
      assert i == 0 || i == 1 || i == 2 || i == 3 || i == 4 || i == 5 || i == 6 || i == 7;
    }
  }

  lemma DnsIsPlain()
    ensures ':' !in "dns=x" && ':' !in "h" && "dns=x" + "://" + "y" == "dns=x://y"
  {
    var q := "dns=x";
    forall i | 0 <= i < |q| ensures q[i] != ':' {
      assert i == 0 || i == 1 || i == 2 || i == 3 || i == 4;
    }
  }

  /** A name server written with a scheme is such a parameter. */
  lemma NameServerWithScheme()
    ensures var p, q := "dns=x://y", "log=info";
            var s, t := ParseConfig(WithQuery("h", [p, q])), ParseConfig(WithQuery("h", [q, p]));
            s.password != t.password || s.tunnel != t.tunnel
  {
    hide HasScheme, Inner, ParseConfig, WithQuery;
    LogIsPlain();
    DnsIsPlain();
    SchemeNowhere("h");
    SchemeNowhere("log=info");
    InnerOf("dns=x", "y");
    SwapChangesTunnel("h", "dns=x://y", "log=info");
  }

  lemma InnerOf(protocol: string, rest: string)
    requires ':' !in protocol
    ensures HasScheme(protocol + "://" + rest) && Inner(protocol + "://" + rest) == rest
  {
    hide IndexOfText;
    var s := protocol + "://" + rest;
    assert s[|protocol|..] == "://" + rest && s[|protocol| + 3..] == rest;
    forall k | 0 <= k < |protocol| ensures !("://" <= s[k..]) {
      assert s[k..][0] == protocol[k];
    }
    FirstIsIndex(s, "://", |protocol|);
  }
}
