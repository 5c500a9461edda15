/**
 Service totals as a materialised view: every event of a tunnel rewrites the tunnel's row and then
 the totals of the service that its peer names, reading the row of the other end.
 */
module ServiceView {
  import opened Wrappers

  /** The tunnel type that the parser found; `Neither` when the URL names no known type. */
  datatype Role = Server | Client | Neither

  datatype Peer = Peer(sid: Option<string>, kind: Option<string>)

  datatype Row = Row(endpoint: int, instance: string, role: Role,
                     tcpRx: int, tcpTx: int, udpRx: int, udpTx: int, peer: Option<Peer>)

  datatype Key = Key(sid: string, kind: string)

  datatype Service = Service(key: Key, rx: int, tx: int, sorts: int)

  /** The tables `tunnels` and `services`, both in primary-key order of insertion. */
  datatype State = State(rows: seq<Row>, services: seq<Service>)

  datatype How = Initial | Create | Update

  /** `report` is the tunnel built from the event; `typed` is false when the instance type is empty. */
  datatype Event = Event(how: How, typed: bool, report: Row)

  predicate OneEnded(kind: string) {
    kind == "0" || kind == "5"
  }

  predicate TwoEnded(kind: string) {
    kind == "1" || kind == "3" || kind == "6" || kind == "2" || kind == "4" || kind == "7"
  }

  /** The service a tunnel reports to, if its peer names one. */
  function KeyOf(r: Row): Option<Key> {
    match r.peer
    case None => None
    case Some(p) =>
      if p.sid.None? || p.sid.value == "" || p.kind.None? || p.kind.value == "" then None
      else Some(Key(p.sid.value, p.kind.value))
  }

  // -------------------------------------------------------------- operations

  predicate Matches(r: Row, k: Key, role: Role) {
    KeyOf(r) == Some(k) && r.role == role
  }

  /** `First` with a where-clause: the matching row with the smallest primary key. */
  function FirstOf(rows: seq<Row>, k: Key, role: Role): Option<Row> {
    if rows == [] then None
    else
      var front, last := FirstOf(rows[..|rows| - 1], k, role), rows[|rows| - 1];
      if front.Some? then front else if Matches(last, k, role) then Some(last) else None
  }

  function Locate(rows: seq<Row>, endpoint: int, instance: string): (i: int)
    ensures -1 <= i < |rows|
    ensures i >= 0 ==> rows[i].endpoint == endpoint && rows[i].instance == instance
    ensures i < 0 ==> forall j :: 0 <= j < |rows| ==> rows[j].endpoint != endpoint || rows[j].instance != instance
  {
    if rows == [] then -1
    else
      var i, last := Locate(rows[..|rows| - 1], endpoint, instance), rows[|rows| - 1];
      if i >= 0 then i
      else if last.endpoint == endpoint && last.instance == instance then |rows| - 1
      else -1
  }

  function ServiceAt(services: seq<Service>, k: Key): (i: int)
    ensures -1 <= i < |services|
    ensures i >= 0 ==> services[i].key == k
    ensures i < 0 ==> forall j :: 0 <= j < |services| ==> services[j].key != k
  {
    if services == [] then -1
    else
      var i := ServiceAt(services[..|services| - 1], k);
      if i >= 0 then i else if services[|services| - 1].key == k then |services| - 1 else -1
  }

  /** `COALESCE(MAX(sorts), -1)`. */
  function MaxSorts(services: seq<Service>): int {
    if services == [] then -1
    else if |services| == 1 then services[0].sorts
    else
      var front, last := MaxSorts(services[..|services| - 1]), services[|services| - 1].sorts;
      if last > front then last else front
  }

  function Received(r: Option<Row>): int {
    if r.Some? then r.value.tcpRx + r.value.udpRx else 0
  }

  function Sent(r: Option<Row>): int {
    if r.Some? then r.value.tcpTx + r.value.udpTx else 0
  }

  function OtherEnd(rows: seq<Row>, k: Key, role: Role): Option<Row> {
    if !TwoEnded(k.kind) then None
    else if role == Server then FirstOf(rows, k, Client)
    else FirstOf(rows, k, Server)
  }

  /** Insert or update by key; an update rewrites the totals of known kinds and never the sort order. */
  function Store(services: seq<Service>, k: Key, rx: int, tx: int): seq<Service> {
    var i := ServiceAt(services, k);
    if i < 0 then services + [Service(k, rx, tx, MaxSorts(services) + 1)]
    else if OneEnded(k.kind) || TwoEnded(k.kind) then services[i := services[i].(rx := rx, tx := tx)]
    else services
  }

  function Upsert(services: seq<Service>, rows: seq<Row>, t: Row): seq<Service> {
    var k := KeyOf(t);
    if k.None? || (OneEnded(k.value.kind) && t.role == Server) then services
    else if !OneEnded(k.value.kind) && !TwoEnded(k.value.kind) then Store(services, k.value, 0, 0)
    else
      var other := OtherEnd(rows, k.value, t.role);
      Store(services, k.value, Received(Some(t)) + Received(other), Sent(Some(t)) + Sent(other))
  }

  /**
   What an event leaves in an existing row: a runtime update keeps a peer that the report lacks, a conflicting
   insert keeps the type.
   */
  function Merged(how: How, row: Row, report: Row): Row {
    if how == Create then report.(role := row.role)
    else if report.peer.None? then report.(peer := row.peer)
    else report
  }

  predicate Skipped(s: State, e: Event) {
    || (e.how == Initial && !e.typed)
    || (e.how == Update && Locate(s.rows, e.report.endpoint, e.report.instance) < 0)
  }

  function WriteRow(s: State, e: Event): seq<Row> {
    var i := Locate(s.rows, e.report.endpoint, e.report.instance);
    if i < 0 then s.rows + [e.report] else s.rows[i := Merged(e.how, s.rows[i], e.report)]
  }

  function Step(s: State, e: Event): State {
    if Skipped(s, e) then s
    else
      var rows := WriteRow(s, e);
      State(rows, Upsert(s.services, rows, e.report))
  }

  function Exec(s: State, es: seq<Event>): State {
    if es == [] then s else Step(Exec(s, es[..|es| - 1]), es[|es| - 1])
  }

  // --------------------------------------------------------- the sort order

  /** No two services share a sort position. */
  ghost predicate SortsDistinct(services: seq<Service>) {
    forall i, j :: 0 <= i < j < |services| ==> services[i].sorts != services[j].sorts
  }

  /** One more than the largest position in use, or zero for the first service. */
  predicate NextSorts(services: seq<Service>, sorts: int) {
    && (services == [] ==> sorts == 0)
    && (services != [] ==> exists i :: 0 <= i < |services| && services[i].sorts + 1 == sorts)
    && (forall i :: 0 <= i < |services| ==> services[i].sorts < sorts)
  }

  lemma {:induction false} MaxSortsIsMax(services: seq<Service>)
    ensures NextSorts(services, MaxSorts(services) + 1)
  {
    if |services| > 1 {
      var front := services[..|services| - 1];
      MaxSortsIsMax(front);
      var i :| 0 <= i < |front| && front[i].sorts + 1 == MaxSorts(front) + 1;
      assert services[i].sorts == MaxSorts(front);
    }
  }

  /** An event keeps every service, its key and its position; a new one goes after all others. */
  lemma StepKeepsSorts(s: State, e: Event)
    ensures var after := Step(s, e).services;
            && |s.services| <= |after| <= |s.services| + 1
            && (forall i :: 0 <= i < |s.services| ==>
                after[i].key == s.services[i].key && after[i].sorts == s.services[i].sorts)
            && (forall i :: |s.services| <= i < |after| ==> forall j :: 0 <= j < |s.services| ==>
                after[j].sorts < after[i].sorts)
            && (|after| > |s.services| ==> NextSorts(s.services, after[|s.services|].sorts))
            && (SortsDistinct(s.services) ==> SortsDistinct(after))
  {
    MaxSortsIsMax(s.services);
    hide MaxSorts, ServiceAt, OtherEnd, WriteRow, Skipped;
  }

  lemma {:induction false} RunKeepsSorts(s: State, es: seq<Event>)
    ensures var after := Exec(s, es).services;
            && |s.services| <= |after|
            && (forall i :: 0 <= i < |s.services| ==>
                after[i].key == s.services[i].key && after[i].sorts == s.services[i].sorts)
            && (SortsDistinct(s.services) ==> SortsDistinct(after))
  {
    if es != [] {
      hide Step, SortsDistinct;
      RunKeepsSorts(s, es[..|es| - 1]);
      StepKeepsSorts(Exec(s, es[..|es| - 1]), es[|es| - 1]);
    }
  }

  // -------------------------------------------------------------- the totals

  /** A direction of the totals. */
  datatype Way = In | Out

  function Amount(r: Row, w: Way): int {
    match w
    case In => r.tcpRx + r.udpRx
    case Out => r.tcpTx + r.udpTx
  }

  /** TCP plus UDP over every row of a service. */
  function Sum(rows: seq<Row>, k: Key, w: Way): int {
    if rows == [] then 0 else Sum(rows[..|rows| - 1], k, w) + Share(rows[|rows| - 1], k, w)
  }

  function Share(r: Row, k: Key, w: Way): int {
    if KeyOf(r) == Some(k) then Amount(r, w) else 0
  }

  /** Both ends of a two-ended service are a server or a client, and there is at most one of each. */
  ghost predicate OnePerEnd(rows: seq<Row>) {
    && (forall i :: 0 <= i < |rows| ==> EndOk(rows[i]))
    && (forall i, j :: 0 <= i < j < |rows| ==> !SameEnd(rows[i], rows[j]))
  }

  predicate EndOk(r: Row) {
    KeyOf(r).Some? && TwoEnded(KeyOf(r).value.kind) ==> r.role != Neither
  }

  predicate SameEnd(r: Row, t: Row) {
    KeyOf(r).Some? && TwoEnded(KeyOf(r).value.kind) && KeyOf(r) == KeyOf(t) && r.role == t.role
  }

  /** The service is there exactly when a row names it, and its totals are the sums over its rows. */
  ghost predicate ViewAt(s: State, k: Key) {
    var i := ServiceAt(s.services, k);
    && (i >= 0 ==> s.services[i].rx == Sum(s.rows, k, In) && s.services[i].tx == Sum(s.rows, k, Out))
    && (i < 0 ==> forall r :: r in s.rows ==> KeyOf(r) != Some(k))
  }

  ghost predicate Right(s: State) {
    && OnePerEnd(s.rows)
    && forall k: Key :: TwoEnded(k.kind) ==> ViewAt(s, k)
  }

  /** The row that an event leaves. */
  function Written(s: State, e: Event): Row {
    var at := Locate(s.rows, e.report.endpoint, e.report.instance);
    if at < 0 then e.report else Merged(e.how, s.rows[at], e.report)
  }

  /** The row takes an end that no other row has, and a conflicting insert reports the row's own type. */
  ghost predicate Fair(s: State, e: Event) {
    var at := Locate(s.rows, e.report.endpoint, e.report.instance);
    Skipped(s, e) ||
    (&& EndOk(Written(s, e))
     && (forall j :: 0 <= j < |s.rows| && j != at ==> !SameEnd(Written(s, e), s.rows[j]))
     && (e.how == Create && at >= 0 ==> s.rows[at].role == e.report.role))
  }

  /**
   An event recomputes the service that its report names and no other. If the row counted for another
   two-ended service, then either it still does, with the amounts it had, or it never counted anything.
   */
  predicate Recounted(s: State, e: Event) {
    var at := Locate(s.rows, e.report.endpoint, e.report.instance);
    at >= 0 && !Skipped(s, e) ==>
      var row := s.rows[at];
      KeyOf(row).Some? && TwoEnded(KeyOf(row).value.kind) && KeyOf(e.report) != KeyOf(row) ==>
        if e.how != Create && e.report.peer.None? then
          Amount(row, In) == Amount(e.report, In) && Amount(row, Out) == Amount(e.report, Out)
        else
          Amount(row, In) == 0 && Amount(row, Out) == 0
  }

  lemma {:induction false} SumUpdate(rows: seq<Row>, i: nat, r: Row, k: Key, w: Way)
    requires i < |rows|
    ensures Sum(rows[i := r], k, w) + Share(rows[i], k, w) == Sum(rows, k, w) + Share(r, k, w)
  {
    hide Share;
    var n, after := |rows| - 1, rows[i := r];
    if i == n {
      assert after[..n] == rows[..n];
    } else {
      SumUpdate(rows[..n], i, r, k, w);
      assert after[..n] == rows[..n][i := r];
    }
  }

  lemma {:induction false} SumSnoc(rows: seq<Row>, r: Row, k: Key, w: Way)
    ensures Sum(rows + [r], k, w) == Sum(rows, k, w) + Share(r, k, w)
  {
    assert (rows + [r])[..|rows|] == rows;
  }

  /** The share of one role, summed. */
  function RoleSum(rows: seq<Row>, k: Key, role: Role, w: Way): int {
    if rows == [] then 0
    else RoleSum(rows[..|rows| - 1], k, role, w) +
         (if Matches(rows[|rows| - 1], k, role) then Amount(rows[|rows| - 1], w) else 0)
  }

  lemma {:induction false} SumByRole(rows: seq<Row>, k: Key, w: Way)
    ensures Sum(rows, k, w) == RoleSum(rows, k, Server, w) + RoleSum(rows, k, Client, w) + RoleSum(rows, k, Neither, w)
  {
    if rows != [] {
      hide KeyOf, Amount;
      SumByRole(rows[..|rows| - 1], k, w);
    }
  }

  function AmountOf(r: Option<Row>, w: Way): int {
    if r.Some? then Amount(r.value, w) else 0
  }

  /** With at most one row for an end, the first row is all there is. */
  lemma {:induction false} FirstIsAll(rows: seq<Row>, k: Key, role: Role, w: Way)
    requires forall i, j :: 0 <= i < j < |rows| ==> !(Matches(rows[i], k, role) && Matches(rows[j], k, role))
    ensures RoleSum(rows, k, role, w) == AmountOf(FirstOf(rows, k, role), w)
    ensures FirstOf(rows, k, role).Some? ==>
            FirstOf(rows, k, role).value in rows && Matches(FirstOf(rows, k, role).value, k, role)
    ensures FirstOf(rows, k, role).None? ==> forall r :: r in rows ==> !Matches(r, k, role)
  {
    if rows != [] {
      hide KeyOf, Amount;
      var front, last := rows[..|rows| - 1], rows[|rows| - 1];
      FirstIsAll(front, k, role, w);
      assert rows == front + [last];
    }
  }

  lemma EndsAreSingle(rows: seq<Row>, k: Key, role: Role)
    requires OnePerEnd(rows) && TwoEnded(k.kind)
    ensures forall i, j :: 0 <= i < j < |rows| ==> !(Matches(rows[i], k, role) && Matches(rows[j], k, role))
    ensures forall r :: r in rows ==> !Matches(r, k, Neither)
  {
    forall i, j | 0 <= i < j < |rows| ensures !(Matches(rows[i], k, role) && Matches(rows[j], k, role)) {
      assert !SameEnd(rows[i], rows[j]);
    }
    forall r | r in rows ensures !Matches(r, k, Neither) {
      assert EndOk(r);
    }
  }

  lemma {:induction false} NoneOfRole(rows: seq<Row>, k: Key, role: Role, w: Way)
    requires forall r :: r in rows ==> !Matches(r, k, role)
    ensures RoleSum(rows, k, role, w) == 0
  {
    if rows != [] {
      hide KeyOf, Amount;
      assert rows[|rows| - 1] in rows;
      NoneOfRole(rows[..|rows| - 1], k, role, w);
    }
  }

  /** For a row of a two-ended service: its own amount and that of the other end are the whole sum. */
  lemma {:induction false} SumIsBothEnds(rows: seq<Row>, i: nat, k: Key, w: Way)
    requires i < |rows| && OnePerEnd(rows) && TwoEnded(k.kind) && KeyOf(rows[i]) == Some(k)
    ensures Sum(rows, k, w) == Amount(rows[i], w) + AmountOf(OtherEnd(rows, k, rows[i].role), w)
  {
    hide Sum, RoleSum, FirstOf, Amount;
    assert EndOk(rows[i]);
    EndsAreSingle(rows, k, Server);
    EndsAreSingle(rows, k, Client);
    EndsAreSingle(rows, k, rows[i].role);
    assert Matches(rows[i], k, rows[i].role);
    hide OnePerEnd, KeyOf, TwoEnded;
    SumByRole(rows, k, w);
    FirstIsAll(rows, k, Server, w);
    FirstIsAll(rows, k, Client, w);
    NoneOfRole(rows, k, Neither, w);
    var own := FirstOf(rows, k, rows[i].role);
    assert own.Some?;
    var j :| 0 <= j < |rows| && rows[j] == own.value;
    assert !(i < j) && !(j < i);
  }

  /** Where an event writes its row. */
  lemma WrittenRow(s: State, e: Event) returns (i: nat)
    requires !Skipped(s, e)
    ensures i < |WriteRow(s, e)| && WriteRow(s, e)[i] == Written(s, e)
    ensures i == if Locate(s.rows, e.report.endpoint, e.report.instance) < 0 then |s.rows|
                 else Locate(s.rows, e.report.endpoint, e.report.instance)
    ensures i < |s.rows| ==> WriteRow(s, e) == s.rows[i := Written(s, e)]
    ensures i >= |s.rows| ==> WriteRow(s, e) == s.rows + [Written(s, e)]
  {
    var at := Locate(s.rows, e.report.endpoint, e.report.instance);
    i := if at < 0 then |s.rows| else at;
  }

  /** A row whose report names a service carries the report. */
  lemma NamedIsWritten(s: State, e: Event)
    requires Fair(s, e) && !Skipped(s, e) && KeyOf(e.report).Some?
    ensures Written(s, e) == e.report
  {
  }

  lemma WriteKeepsEnds(s: State, e: Event)
    requires OnePerEnd(s.rows) && Fair(s, e) && !Skipped(s, e)
    ensures OnePerEnd(WriteRow(s, e))
  {
    var at := WrittenRow(s, e);
    var rows := WriteRow(s, e);
    hide WriteRow, EndOk, Written, KeyOf, TwoEnded;
    forall i, j | 0 <= i < j < |rows| ensures !SameEnd(rows[i], rows[j]) {
      if i != at && j != at {
        assert !SameEnd(s.rows[i], s.rows[j]);
      }
    }
  }

  /** The sum of any service changes by the share that the written row gains or loses. */
  lemma {:induction false} WriteSums(s: State, e: Event, k: Key, w: Way)
    requires !Skipped(s, e)
    ensures var at := Locate(s.rows, e.report.endpoint, e.report.instance);
            Sum(WriteRow(s, e), k, w) ==
            Sum(s.rows, k, w) + Share(Written(s, e), k, w) - (if at < 0 then 0 else Share(s.rows[at], k, w))
  {
    var i := WrittenRow(s, e);
    hide WriteRow, Sum, KeyOf, Written;
    if i < |s.rows| {
      SumUpdate(s.rows, i, Written(s, e), k, w);
    } else {
      SumSnoc(s.rows, Written(s, e), k, w);
    }
  }

  lemma {:induction false} StoreAt(services: seq<Service>, k: Key, rx: int, tx: int, j: Key)
    ensures var after := Store(services, k, rx, tx);
            && (j != k ==> ServiceAt(after, j) == ServiceAt(services, j))
            && (j != k && ServiceAt(services, j) >= 0 ==>
                after[ServiceAt(services, j)] == services[ServiceAt(services, j)])
            && ServiceAt(after, k) >= 0
            && (OneEnded(k.kind) || TwoEnded(k.kind) ==>
                after[ServiceAt(after, k)].rx == rx && after[ServiceAt(after, k)].tx == tx)
  {
    hide MaxSorts, OneEnded, TwoEnded;
    var i, after := ServiceAt(services, k), Store(services, k, rx, tx);
    if i < 0 {
      assert after[..|after| - 1] == services;
    } else {
      SameKeysSameAt(services, after, j);
      SameKeysSameAt(services, after, k);
    }
  }

  lemma {:induction false} SameKeysSameAt(xs: seq<Service>, ys: seq<Service>, k: Key)
    requires |xs| == |ys| && forall i :: 0 <= i < |xs| ==> xs[i].key == ys[i].key
    ensures ServiceAt(xs, k) == ServiceAt(ys, k)
  {
    if xs != [] {
      SameKeysSameAt(xs[..|xs| - 1], ys[..|ys| - 1], k);
    }
  }

  lemma {:induction false} UpsertOthers(s: State, rows: seq<Row>, t: Row, k: Key)
    requires KeyOf(t) != Some(k)
    ensures var after := Upsert(s.services, rows, t);
            && ServiceAt(after, k) == ServiceAt(s.services, k)
            && (ServiceAt(after, k) >= 0 ==> after[ServiceAt(after, k)] == s.services[ServiceAt(after, k)])
  {
    hide OtherEnd, ServiceAt, KeyOf, OneEnded, TwoEnded;
    if KeyOf(t).Some? {
      var j := KeyOf(t).value;
      var other := OtherEnd(rows, j, t.role);
      StoreAt(s.services, j, 0, 0, k);
      StoreAt(s.services, j, Received(Some(t)) + Received(other), Sent(Some(t)) + Sent(other), k);
      hide Store;
    }
  }

  lemma {:induction false} UpsertOwn(services: seq<Service>, rows: seq<Row>, t: Row, k: Key)
    requires KeyOf(t) == Some(k) && TwoEnded(k.kind)
    ensures var after, other := Upsert(services, rows, t), OtherEnd(rows, k, t.role);
            && ServiceAt(after, k) >= 0
            && after[ServiceAt(after, k)].rx == Amount(t, In) + AmountOf(other, In)
            && after[ServiceAt(after, k)].tx == Amount(t, Out) + AmountOf(other, Out)
  {
    hide OtherEnd, ServiceAt, KeyOf;
    var other := OtherEnd(rows, k, t.role);
    StoreAt(services, k, Received(Some(t)) + Received(other), Sent(Some(t)) + Sent(other), k);
    hide Store;
  }

  /** The service that the report names comes out right. */
  lemma NamedIsRight(s: State, e: Event, k: Key)
    requires Right(s) && Fair(s, e) && !Skipped(s, e) && TwoEnded(k.kind) && KeyOf(e.report) == Some(k)
    ensures ViewAt(Step(s, e), k)
  {
    hide Upsert, WriteRow, Sum, KeyOf, TwoEnded, ServiceAt, OtherEnd, OnePerEnd, Amount, AmountOf, Fair, Written,
         Skipped;
    NamedIsWritten(s, e);
    var rows := WriteRow(s, e);
    WriteKeepsEnds(s, e);
    var at := WrittenRow(s, e);
    assert rows[at] == e.report;
    UpsertOwn(s.services, rows, e.report, k);
    SumIsBothEnds(rows, at, k, In);
    SumIsBothEnds(rows, at, k, Out);
    assert Step(s, e) == State(rows, Upsert(s.services, rows, e.report));
    hide Step, Right;
  }

  predicate SameShares(s: State, e: Event, k: Key) {
    var at := Locate(s.rows, e.report.endpoint, e.report.instance);
    at >= 0 ==>
      Share(Written(s, e), k, In) == Share(s.rows[at], k, In) &&
      Share(Written(s, e), k, Out) == Share(s.rows[at], k, Out)
  }

  /** Any other service comes out right exactly when the row's share of it stays what it was. */
  lemma OthersAreRightExactly(s: State, e: Event, k: Key)
    requires Right(s) && !Skipped(s, e) && TwoEnded(k.kind) && KeyOf(e.report) != Some(k)
    ensures ViewAt(Step(s, e), k) <==> SameShares(s, e, k)
  {
    hide Upsert, WriteRow, Sum, KeyOf, TwoEnded, ServiceAt, OtherEnd, OnePerEnd, Amount, Written, Locate;
    assert ViewAt(s, k);
    UpsertOthers(s, WriteRow(s, e), e.report, k);
    WriteSums(s, e, k, In);
    WriteSums(s, e, k, Out);
    UnnamedWrite(s, e, k);
  }

  /** A service that the report does not name gets no new row, only perhaps a changed one. */
  lemma UnnamedWrite(s: State, e: Event, k: Key)
    requires !Skipped(s, e) && KeyOf(e.report) != Some(k)
    ensures var at := Locate(s.rows, e.report.endpoint, e.report.instance);
            && (at < 0 ==> Share(Written(s, e), k, In) == 0 == Share(Written(s, e), k, Out))
            && ((forall r :: r in s.rows ==> KeyOf(r) != Some(k)) ==>
                (forall r :: r in WriteRow(s, e) ==> KeyOf(r) != Some(k)) && SameShares(s, e, k))
  {
    var at := Locate(s.rows, e.report.endpoint, e.report.instance);
    assert at >= 0 ==> KeyOf(Written(s, e)) == KeyOf(e.report) || KeyOf(Written(s, e)) == KeyOf(s.rows[at]);
    var i := WrittenRow(s, e);
    hide KeyOf, WriteRow, Locate, Amount, Skipped;
    assert at >= 0 ==> s.rows[at] in s.rows;
    assert at < 0 ==> Written(s, e) == e.report;
    hide Written;
  }

  lemma SharesAreRecounted(s: State, e: Event)
    requires Fair(s, e) && !Skipped(s, e)
    ensures Recounted(s, e) <==> forall k: Key :: TwoEnded(k.kind) && KeyOf(e.report) != Some(k) ==> SameShares(s, e, k)
  {
    hide Locate, Fair, TwoEnded;
    var at := Locate(s.rows, e.report.endpoint, e.report.instance);
    if at >= 0 && KeyOf(s.rows[at]).Some? && TwoEnded(KeyOf(s.rows[at]).value.kind) &&
      KeyOf(e.report) != KeyOf(s.rows[at]) {
      var k := KeyOf(s.rows[at]).value;
      assert Recounted(s, e) <==> SameShares(s, e, k);
    }
  }

  /**
   One event keeps the totals of every two-ended service equal to the sums over its rows exactly when
   it recounts whatever it changes. A report with the row's peer always does; one without a peer leaves
   the row's peer and the service alone, and so does only if the amounts are the same.
   */
  lemma StepIsRightExactly(s: State, e: Event)
    requires Right(s) && Fair(s, e)
    ensures Right(Step(s, e)) <==> Recounted(s, e)
  {
    hide Upsert, WriteRow, Sum, KeyOf, TwoEnded, ServiceAt, OtherEnd, OnePerEnd, Amount, Fair, Written, Recounted,
         SameShares, ViewAt;
    if !Skipped(s, e) {
      WriteKeepsEnds(s, e);
      SharesAreRecounted(s, e);
      forall k: Key | TwoEnded(k.kind)
        ensures KeyOf(e.report) == Some(k) ==> ViewAt(Step(s, e), k)
        ensures KeyOf(e.report) != Some(k) ==> (ViewAt(Step(s, e), k) <==> SameShares(s, e, k))
      {
        if KeyOf(e.report) == Some(k) {
          NamedIsRight(s, e, k);
        } else {
          OthersAreRightExactly(s, e, k);
        }
      }
    } else {
      assert Recounted(s, e) by {
        SkippedRecounts(s, e);
      }
    }
  }

  lemma SkippedRecounts(s: State, e: Event)
    requires Skipped(s, e)
    ensures Recounted(s, e)
  {
  }

  /** With fixed peers and types, one event keeps every two-ended service right. */
  lemma StepIsRight(s: State, e: Event)
    requires Right(s) && Fair(s, e)
    requires var at := Locate(s.rows, e.report.endpoint, e.report.instance);
             at >= 0 ==> s.rows[at].peer == e.report.peer
    ensures Right(Step(s, e))
  {
    StepIsRightExactly(s, e);
    hide Right, Step, Fair;
  }

  ghost predicate FairRun(s: State, es: seq<Event>) {
    es != [] ==> FairRun(s, es[..|es| - 1]) && Fair(Exec(s, es[..|es| - 1]), es[|es| - 1])
  }

  ghost predicate RecountedRun(s: State, es: seq<Event>) {
    es != [] ==> RecountedRun(s, es[..|es| - 1]) && Recounted(Exec(s, es[..|es| - 1]), es[|es| - 1])
  }

  ghost predicate RightThroughout(s: State, es: seq<Event>) {
    Right(Exec(s, es)) && (es != [] ==> RightThroughout(s, es[..|es| - 1]))
  }

  /** A run keeps the totals right throughout exactly when each of its events recounts what it changes. */
  lemma {:induction false} RunIsRight(s: State, es: seq<Event>)
    requires Right(s) && FairRun(s, es)
    ensures RightThroughout(s, es) <==> RecountedRun(s, es)
    ensures RecountedRun(s, es) ==> Right(Exec(s, es))
  {
    if es != [] {
      hide Step, Right, Fair, Recounted;
      RunIsRight(s, es[..|es| - 1]);
      if RightThroughout(s, es[..|es| - 1]) {
        StepIsRightExactly(Exec(s, es[..|es| - 1]), es[|es| - 1]);
      }
    }
  }

  const EMPTY := State([], [])

  /** From empty tables. */
  lemma {:induction false} RunFromEmpty(es: seq<Event>)
    requires FairRun(EMPTY, es)
    ensures RightThroughout(EMPTY, es) <==> RecountedRun(EMPTY, es)
    ensures SortsDistinct(Exec(EMPTY, es).services)
  {
    hide Exec, RightThroughout, RecountedRun, FairRun;
    assert Right(EMPTY);
    hide Right;
    RunIsRight(EMPTY, es);
    RunKeepsSorts(EMPTY, es);
  }

  /** Two events from empty tables: a tunnel that names its service, then new counters without a peer. */
  lemma UpdateWithoutPeerIsForgotten(t: Row, update: Row, k: Key)
    requires KeyOf(t) == Some(k) && TwoEnded(k.kind) && t.role != Neither
    requires update == t.(tcpRx := update.tcpRx, tcpTx := update.tcpTx, udpRx := update.udpRx, udpTx := update.udpTx,
                          peer := None)
    ensures var s := Step(EMPTY, Event(Create, true, t));
            && Right(s) && Fair(s, Event(Update, true, update))
            && (Right(Step(s, Event(Update, true, update))) <==>
                Amount(t, In) == Amount(update, In) && Amount(t, Out) == Amount(update, Out))
  {
    var create, e := Event(Create, true, t), Event(Update, true, update);
    var s := Step(EMPTY, create);
    FirstRow(t, create);
    BareUpdate(s, t, update, k);
    hide Step, Right, Fair, Recounted, KeyOf, Amount;
    StepIsRightExactly(s, e);
  }

  lemma BareUpdate(s: State, t: Row, update: Row, k: Key)
    requires s.rows == [t] && KeyOf(t) == Some(k) && TwoEnded(k.kind) && t.role != Neither
    requires update.endpoint == t.endpoint && update.instance == t.instance && update.role == t.role &&
             update.peer == None
    ensures var e := Event(Update, true, update);
            Fair(s, e) && (Recounted(s, e) <==>
                           Amount(t, In) == Amount(update, In) && Amount(t, Out) == Amount(update, Out))
  {
    RowIsFound(t);
    hide Locate, Amount, TwoEnded;
  }

  lemma FirstRow(t: Row, create: Event)
    requires create == Event(Create, true, t) && (KeyOf(t).Some? && TwoEnded(KeyOf(t).value.kind) ==> t.role != Neither)
    ensures Step(EMPTY, create).rows == [t] && Right(Step(EMPTY, create))
  {
    hide Upsert, KeyOf;
    assert Right(EMPTY);
    hide Right;
    StepIsRightExactly(EMPTY, create);
  }

  lemma RowIsFound(t: Row)
    ensures Locate([t], t.endpoint, t.instance) == 0
  {
    assert [t][..0] == [];
  }

  /** The store of an event, looked up. */
  function Stored(s: State, e: Event, k: Key): Option<Service> {
    var after := Step(s, e).services;
    if ServiceAt(after, k) >= 0 then Some(after[ServiceAt(after, k)]) else None
  }

  /** A one-ended service has its client's own totals; a server that claims one is ignored. */
  lemma OneEndedIsOwn(s: State, e: Event, k: Key)
    requires !Skipped(s, e) && KeyOf(e.report) == Some(k) && OneEnded(k.kind)
    ensures if e.report.role == Server then Step(s, e).services == s.services
            else Stored(s, e, k).Some? && Stored(s, e, k).value.rx == Amount(e.report, In) &&
                 Stored(s, e, k).value.tx == Amount(e.report, Out)
  {
    hide Store, ServiceAt, KeyOf, WriteRow, Skipped;
    assert OtherEnd(WriteRow(s, e), k, e.report.role) == None;
    StoreAt(s.services, k, Received(Some(e.report)), Sent(Some(e.report)), k);
  }

  predicate HasTotals(service: Option<Service>, rx: int, tx: int) {
    service.Some? && service.value.rx == rx && service.value.tx == tx
  }

  /** The report's peer names the service by id and kind, neither of them empty. */
  predicate Names(r: Row, k: Key) {
    k.sid != "" && k.kind != "" && r.peer.Some? && r.peer.value.sid == Some(k.sid) && r.peer.value.kind == Some(k.kind)
  }

  lemma NamesIsKey(r: Row, k: Key)
    ensures KeyOf(r) == Some(k) <==> Names(r, k)
  {
  }

  predicate Lacks(text: Option<string>) {
    text.None? || text.value == ""
  }

  /** A report whose peer is missing, or lacks an id or a kind, changes no service. */
  lemma UnnamedChangesNoService(s: State, e: Event)
    requires e.report.peer.None? || Lacks(e.report.peer.value.sid) || Lacks(e.report.peer.value.kind)
    ensures Step(s, e).services == s.services
  {
    assert KeyOf(e.report).None?;
    hide KeyOf, WriteRow, Skipped;
  }

  /**
   What an event leaves in the tunnels: an initial event without a type and an update of an unknown tunnel
   nothing, any other exactly one row for its tunnel, written from the report. An insert that meets a row
   keeps that row's type, and any other event the row's peer if the report has none.
   */
  lemma RowsAfter(s: State, e: Event)
    ensures var i, after := Locate(s.rows, e.report.endpoint, e.report.instance), Step(s, e).rows;
            if (e.how == Initial && !e.typed) || (e.how == Update && i < 0) then after == s.rows
            else if i < 0 then after == s.rows + [e.report]
            else
              && |after| == |s.rows| && (forall j :: 0 <= j < |after| && j != i ==> after[j] == s.rows[j])
              && (after[i].tcpRx, after[i].tcpTx) == (e.report.tcpRx, e.report.tcpTx)
              && (after[i].udpRx, after[i].udpTx) == (e.report.udpRx, e.report.udpTx)
              && (after[i].endpoint, after[i].instance) == (e.report.endpoint, e.report.instance)
              && (e.how == Create ==> after[i].role == s.rows[i].role && after[i].peer == e.report.peer)
              && (e.how != Create ==> after[i].role == e.report.role)
              && (e.how != Create && e.report.peer.Some? ==> after[i].peer == e.report.peer)
              && (e.how != Create && e.report.peer.None? ==> after[i].peer == s.rows[i].peer)
  {
    hide Upsert, Locate;
  }

  /** Which kinds have two ends and which have one. */
  lemma KindsByName(kind: string)
    ensures TwoEnded(kind) <==> kind in {"1", "2", "3", "4", "6", "7"}
    ensures OneEnded(kind) <==> kind in {"0", "5"}
    ensures !(OneEnded(kind) && TwoEnded(kind))
  {
  }

  /** Whatever the tables hold, a service of these six kinds gets its report's amounts and the first other end's. */
  lemma {:induction false} TwoEndedTotals(s: State, e: Event, k: Key)
    requires !Skipped(s, e) && Names(e.report, k) && k.kind in {"1", "2", "3", "4", "6", "7"}
    ensures var other := FirstOf(WriteRow(s, e), k, if e.report.role == Server then Client else Server);
            HasTotals(Stored(s, e, k), e.report.tcpRx + e.report.udpRx + AmountOf(other, In),
                      e.report.tcpTx + e.report.udpTx + AmountOf(other, Out))
  {
    NamesIsKey(e.report, k);
    KindsByName(k.kind);
    UpsertOwn(s.services, WriteRow(s, e), e.report, k);
    hide KeyOf, WriteRow, Skipped, ServiceAt, FirstOf, MaxSorts, TwoEnded, OneEnded, Upsert;
  }

  /** One of these two kinds gets its client's own amounts, and a server that claims one changes no service. */
  lemma OneEndedTotals(s: State, e: Event, k: Key)
    requires !Skipped(s, e) && Names(e.report, k) && k.kind in {"0", "5"}
    ensures e.report.role == Server ==> Step(s, e).services == s.services
    ensures e.report.role != Server ==>
            HasTotals(Stored(s, e, k), e.report.tcpRx + e.report.udpRx, e.report.tcpTx + e.report.udpTx)
  {
    NamesIsKey(e.report, k);
    KindsByName(k.kind);
    hide KeyOf, WriteRow, Skipped, ServiceAt, TwoEnded, OneEnded, Step;
    OneEndedIsOwn(s, e, k);
  }

  /** A service of any other kind starts at zero and is never written again. */
  lemma {:induction false} OtherKindTotals(s: State, e: Event, k: Key)
    requires !Skipped(s, e) && Names(e.report, k)
    requires k.kind !in {"0", "1", "2", "3", "4", "5", "6", "7"}
    ensures var after := Step(s, e).services;
            if ServiceAt(s.services, k) >= 0 then after == s.services
            else |after| == |s.services| + 1 && after[..|s.services|] == s.services &&
                 after[|s.services|].key == k && after[|s.services|].rx == 0 == after[|s.services|].tx
  {
    NamesIsKey(e.report, k);
    KindsByName(k.kind);
    hide KeyOf, WriteRow, Skipped, ServiceAt, FirstOf, MaxSorts, TwoEnded, OneEnded;
    assert Step(s, e).services == Upsert(s.services, WriteRow(s, e), e.report);
  }

  // -------------------------------------------------- two events at a time

  /** The totals an event would store, read from the given rows. */
  function Planned(rows: seq<Row>, t: Row, w: Way): int {
    match KeyOf(t)
    case None => 0
    case Some(k) => Amount(t, w) + AmountOf(OtherEnd(rows, k, t.role), w)
  }

  /**
   Row and totals are written separately. When another end's event runs between the reading and the
   writing of the totals, the stored total misses exactly what that end gained, so it is right only
   if that end's amount did not change.
   */
  lemma {:induction false} StaleTotal(rows: seq<Row>, i: nat, j: nat, mine: Row, theirs: Row, k: Key, w: Way)
    requires i < |rows| && j < |rows| && i != j && OnePerEnd(rows) && TwoEnded(k.kind)
    requires KeyOf(rows[i]) == Some(k) && KeyOf(rows[j]) == Some(k)
    requires KeyOf(mine) == Some(k) && mine.role == rows[i].role && KeyOf(theirs) == Some(k) &&
             theirs.role == rows[j].role
    ensures var read, final := rows[i := mine], rows[i := mine][j := theirs];
            && Planned(read, mine, w) == Sum(final, k, w) - (Amount(theirs, w) - Amount(rows[j], w))
            && (Planned(read, mine, w) == Sum(final, k, w) <==> Amount(theirs, w) == Amount(rows[j], w))
  {
    hide Sum, KeyOf, TwoEnded, OtherEnd;
    var read := rows[i := mine];
    assert OnePerEnd(read) by {
      EndsReplaced(rows, i, mine);
    }
    SumIsBothEnds(read, i, k, w);
    SumUpdate(read, j, theirs, k, w);
  }

  lemma EndsReplaced(rows: seq<Row>, i: nat, r: Row)
    requires i < |rows| && OnePerEnd(rows) && KeyOf(r) == KeyOf(rows[i]) && r.role == rows[i].role
    ensures OnePerEnd(rows[i := r])
  {
    hide KeyOf;
    var after := rows[i := r];
    forall a, b | 0 <= a < b < |after| ensures !SameEnd(after[a], after[b]) {
      assert !SameEnd(rows[a], rows[b]);
    }
    forall a | 0 <= a < |after| ensures EndOk(after[a]) {
      assert EndOk(rows[a]);
    }
  }
}
