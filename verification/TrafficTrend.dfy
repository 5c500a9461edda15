/**
 The hourly traffic trend: records are grouped by instance, each group is sorted by hour, rises
 between neighbours are summed per hour, and the latest hours are kept.
 */
module TrafficTrend {

  /** An hour key is its time in seconds. */
  datatype Record = Record(instance: string, hour: int, tcpRx: int, tcpTx: int, udpRx: int, udpTx: int)

  datatype Item = Item(hour: int, tcpRx: int, tcpTx: int, udpRx: int, udpTx: int, count: nat)

  /** The rise from one record of an instance to its next. */
  datatype Rise = Rise(hour: int, tcpRx: int, tcpTx: int, udpRx: int, udpTx: int)

  datatype Counter = TcpRx | TcpTx | UdpRx | UdpTx

  function Reading(r: Record, c: Counter): int {
    match c
    case TcpRx => r.tcpRx
    case TcpTx => r.tcpTx
    case UdpRx => r.udpRx
    case UdpTx => r.udpTx
  }

  function RiseIn(r: Rise, c: Counter): int {
    match c
    case TcpRx => r.tcpRx
    case TcpTx => r.tcpTx
    case UdpRx => r.udpRx
    case UdpTx => r.udpTx
  }

  function Total(item: Item, c: Counter): int {
    match c
    case TcpRx => item.tcpRx
    case TcpTx => item.tcpTx
    case UdpRx => item.udpRx
    case UdpTx => item.udpTx
  }

  // ------------------------------------------------------------ the algorithm

  /** A fall counts as no traffic at all. */
  function Up(previous: int, current: int): int {
    if current - previous >= 0 then current - previous else 0
  }

  function RiseOf(previous: Record, current: Record): Rise {
    Rise(current.hour, Up(previous.tcpRx, current.tcpRx), Up(previous.tcpTx, current.tcpTx),
         Up(previous.udpRx, current.udpRx), Up(previous.udpTx, current.udpTx))
  }

  function Rises(group: seq<Record>): seq<Rise> {
    if |group| < 2 then []
    else Rises(group[..|group| - 1]) + [RiseOf(group[|group| - 2], group[|group| - 1])]
  }

  /** The rises of all groups, instance by instance. */
  function AllRises(data: map<string, seq<Record>>, order: seq<string>): seq<Rise>
    requires forall i :: i in order ==> i in data
  {
    if order == [] then []
    else
      var last := order[|order| - 1];
      assert last in order;
      AllRises(data, order[..|order| - 1]) + Rises(data[last])
  }

  function AddRise(hourly: map<int, Item>, r: Rise): map<int, Item> {
    var item := if r.hour in hourly then hourly[r.hour] else Item(r.hour, 0, 0, 0, 0, 0);
    hourly[r.hour := Item(item.hour, item.tcpRx + r.tcpRx, item.tcpTx + r.tcpTx,
                          item.udpRx + r.udpRx, item.udpTx + r.udpTx, item.count + 1)]
  }

  function Hourly(rises: seq<Rise>): map<int, Item> {
    if rises == [] then map[] else AddRise(Hourly(rises[..|rises| - 1]), rises[|rises| - 1])
  }

  /** The records of one instance in the order they came. */
  function Of(records: seq<Record>, instance: string): seq<Record> {
    if records == [] then []
    else
      var front, last := Of(records[..|records| - 1], instance), records[|records| - 1];
      if last.instance == instance then front + [last] else front
  }

  /** One sorted group for every instance that occurs; equal hours may come in either order. */
  ghost predicate IsGrouping(records: seq<Record>, data: map<string, seq<Record>>) {
    && (forall i :: i in data <==> Of(records, i) != [])
    && (forall i :: i in data ==> multiset(data[i]) == multiset(Of(records, i)) && ByHour(data[i]))
  }

  ghost predicate ByHour(group: seq<Record>) {
    forall i, j :: 0 <= i < j < |group| ==> group[i].hour <= group[j].hour
  }

  /** Every key of the map once. */
  ghost predicate IsOrderOf(order: seq<string>, m: map<string, seq<Record>>) {
    && (forall i :: i in order <==> i in m)
    && (forall i, j :: 0 <= i < j < |order| ==> order[i] != order[j])
  }

  /** The map's items, strictly ascending by hour. */
  ghost predicate IsListOf(list: seq<Item>, hourly: map<int, Item>) {
    && (forall i :: 0 <= i < |list| ==> list[i].hour in hourly && list[i] == hourly[list[i].hour])
    && (forall h :: h in hourly ==> HasHour(list, h))
    && (forall i, j :: 0 <= i < j < |list| ==> list[i].hour < list[j].hour)
  }

  ghost predicate HasHour(list: seq<Item>, h: int) {
    exists i :: 0 <= i < |list| && list[i].hour == h
  }

  function Latest(list: seq<Item>, hours: nat): seq<Item> {
    if |list| > hours then list[|list| - hours..] else list
  }

  // ------------------------------------------------------- what an item holds

  function SumAt(rises: seq<Rise>, h: int, c: Counter): int {
    if rises == [] then 0
    else SumAt(rises[..|rises| - 1], h, c) + (if rises[|rises| - 1].hour == h then RiseIn(rises[|rises| - 1], c) else 0)
  }

  function CountAt(rises: seq<Rise>, h: int): nat {
    if rises == [] then 0 else CountAt(rises[..|rises| - 1], h) + (if rises[|rises| - 1].hour == h then 1 else 0)
  }

  /** There is an item for exactly the hours with a rise, and it holds the sums over the rises of its hour. */
  lemma {:induction false} HourlyHolds(rises: seq<Rise>, h: int, c: Counter)
    ensures h in Hourly(rises) <==> CountAt(rises, h) > 0
    ensures h in Hourly(rises) ==>
            Hourly(rises)[h].hour == h && Total(Hourly(rises)[h], c) == SumAt(rises, h, c) &&
              Hourly(rises)[h].count == CountAt(rises, h)
    ensures h !in Hourly(rises) ==> SumAt(rises, h, c) == 0
  {
    if rises != [] {
      HourlyHolds(rises[..|rises| - 1], h, c);
    }
  }

  lemma {:induction false} SumAtConcat(xs: seq<Rise>, ys: seq<Rise>, h: int, c: Counter)
    ensures SumAt(xs + ys, h, c) == SumAt(xs, h, c) + SumAt(ys, h, c)
    ensures CountAt(xs + ys, h) == CountAt(xs, h) + CountAt(ys, h)
  {
    if ys == [] {
      assert xs + ys == xs;
    } else {
      var zs := xs + ys;
      assert zs[..|zs| - 1] == xs + ys[..|ys| - 1] && zs[|zs| - 1] == ys[|ys| - 1];
      SumAtConcat(xs, ys[..|ys| - 1], h, c);
    }
  }

  // ------------------------------------------- the same from the readings alone

  /** What the pairs of neighbouring records ending at hour h add to a counter: the difference if it did not fall. */
  function GainAt(group: seq<Record>, h: int, c: Counter): int {
    if |group| < 2 then 0
    else
      var n := |group| - 1;
      var previous, current := Reading(group[n - 1], c), Reading(group[n], c);
      GainAt(group[..n], h, c) + (if group[n].hour == h && current >= previous then current - previous else 0)
  }

  /** The number of pairs of neighbouring records ending at hour h. */
  function PairsAt(group: seq<Record>, h: int): nat {
    if |group| < 2 then 0
    else PairsAt(group[..|group| - 1], h) + (if group[|group| - 1].hour == h then 1 else 0)
  }

  /** By how much the falls of a counter bring it down. */
  function Fallen(group: seq<Record>, c: Counter): nat {
    if |group| < 2 then 0
    else
      var n := |group| - 1;
      var previous, current := Reading(group[n - 1], c), Reading(group[n], c);
      Fallen(group[..n], c) + (if current < previous then previous - current else 0)
  }

  function Gains(data: map<string, seq<Record>>, order: seq<string>, h: int, c: Counter): int
    requires forall i :: i in order ==> i in data
  {
    if order == [] then 0
    else
      var last := order[|order| - 1];
      assert last in order;
      Gains(data, order[..|order| - 1], h, c) + GainAt(data[last], h, c)
  }

  function Pairs(data: map<string, seq<Record>>, order: seq<string>, h: int): nat
    requires forall i :: i in order ==> i in data
  {
    if order == [] then 0
    else
      var last := order[|order| - 1];
      assert last in order;
      Pairs(data, order[..|order| - 1], h) + PairsAt(data[last], h)
  }

  function Falls(data: map<string, seq<Record>>, order: seq<string>, c: Counter): nat
    requires forall i :: i in order ==> i in data
  {
    if order == [] then 0
    else
      var last := order[|order| - 1];
      assert last in order;
      Falls(data, order[..|order| - 1], c) + Fallen(data[last], c)
  }

  lemma {:induction false} GroupGains(group: seq<Record>, h: int, c: Counter)
    ensures SumAt(Rises(group), h, c) == GainAt(group, h, c)
    ensures CountAt(Rises(group), h) == PairsAt(group, h)
  {
    if |group| >= 2 {
      var n := |group| - 1;
      GroupGains(group[..n], h, c);
      var rises, last := Rises(group[..n]), RiseOf(group[n - 1], group[n]);
      assert (rises + [last])[..|rises|] == rises;
      assert RiseIn(last, c) == Up(Reading(group[n - 1], c), Reading(group[n], c));
    }
  }

  lemma {:induction false} AllGains(data: map<string, seq<Record>>, order: seq<string>, h: int, c: Counter)
    requires forall i :: i in order ==> i in data
    ensures SumAt(AllRises(data, order), h, c) == Gains(data, order, h, c)
    ensures CountAt(AllRises(data, order), h) == Pairs(data, order, h)
  {
    if order != [] {
      hide SumAt, CountAt, Rises, GainAt, PairsAt;
      var front, last := order[..|order| - 1], order[|order| - 1];
      assert order == front + [last];
      AllGains(data, front, h, c);
      GroupGains(data[last], h, c);
      SumSnoc(data, front, last, h, c);
    }
  }

  /**
   The result told from the readings: there is an item for exactly the hours at which a pair of an
   instance's neighbouring records ends; it counts these pairs, and each of its counters is the sum of
   the differences over those of them in which the counter does not fall.
   */
  lemma {:induction false} ItemMeans(data: map<string, seq<Record>>, order: seq<string>, h: int, c: Counter)
    requires forall i :: i in order ==> i in data
    ensures var hourly := Hourly(AllRises(data, order));
            && (h in hourly <==> Pairs(data, order, h) > 0)
            && (h in hourly ==> hourly[h].hour == h && hourly[h].count == Pairs(data, order, h) &&
                                Total(hourly[h], c) == Gains(data, order, h, c))
  {
    hide AllRises, Hourly, SumAt, CountAt, Gains, Pairs;
    HourlyHolds(AllRises(data, order), h, c);
    AllGains(data, order, h, c);
  }

  // ------------------------------------------------- the order does not matter

  /** The database's query promises one record per instance and hour. */
  ghost predicate Unique(records: seq<Record>) {
    forall i, j :: 0 <= i < j < |records| ==>
      records[i].instance != records[j].instance || records[i].hour != records[j].hour
  }

  lemma {:induction false} OfCounts(records: seq<Record>, instance: string, r: Record)
    ensures multiset(Of(records, instance))[r] == if r.instance == instance then multiset(records)[r] else 0
  {
    if records != [] {
      var front, last := records[..|records| - 1], records[|records| - 1];
      OfCounts(front, instance, r);
      assert records == front + [last];
    }
  }

  lemma {:induction false} OfPermuted(xs: seq<Record>, ys: seq<Record>, instance: string)
    requires multiset(xs) == multiset(ys)
    ensures multiset(Of(xs, instance)) == multiset(Of(ys, instance))
  {
    forall r ensures multiset(Of(xs, instance))[r] == multiset(Of(ys, instance))[r] {
      OfCounts(xs, instance, r);
      OfCounts(ys, instance, r);
    }
  }

  /** The hours of a group are distinct. */
  ghost predicate Distinct(group: seq<Record>) {
    forall r, s :: r in group && s in group && r.hour == s.hour ==> r == s
  }

  lemma {:induction false} OfDistinct(records: seq<Record>, instance: string)
    requires Unique(records)
    ensures Distinct(Of(records, instance))
    ensures forall r :: r in Of(records, instance) ==> multiset(Of(records, instance))[r] == 1
  {
    forall r | r in Of(records, instance)
      ensures r in records && r.instance == instance && multiset(Of(records, instance))[r] == 1
    {
      OfCounts(records, instance, r);
      assert r in multiset(Of(records, instance));
      assert r in multiset(records);
      OnceEach(records, r);
    }
    forall r, s | r in Of(records, instance) && s in Of(records, instance) && r.hour == s.hour ensures r == s {
      var i :| 0 <= i < |records| && records[i] == r;
      var j :| 0 <= j < |records| && records[j] == s;
    }
  }

  lemma {:induction false} OnceEach(records: seq<Record>, r: Record)
    requires Unique(records)
    ensures multiset(records)[r] == if r in records then 1 else 0
  {
    if records != [] {
      var front, last := records[..|records| - 1], records[|records| - 1];
      OnceEach(front, r);
      assert records == front + [last];
    }
  }

  /** The last of two sorted arrangements is the same record. */
  lemma SameLast(xs: seq<Record>, ys: seq<Record>)
    requires multiset(xs) == multiset(ys) && ByHour(xs) && ByHour(ys) && Distinct(xs) && xs != [] && ys != []
    ensures xs[|xs| - 1] == ys[|ys| - 1]
  {
    var x, y := xs[|xs| - 1], ys[|ys| - 1];
    assert x in multiset(xs) && y in multiset(ys);
    var i :| 0 <= i < |ys| && ys[i] == x;
    var j :| 0 <= j < |xs| && xs[j] == y;
    assert x.hour <= y.hour && y.hour <= x.hour;
  }

  lemma WithoutLast(xs: seq<Record>)
    requires xs != []
    ensures multiset(xs[..|xs| - 1]) == multiset(xs) - multiset{xs[|xs| - 1]}
  {
    assert xs == xs[..|xs| - 1] + [xs[|xs| - 1]];
  }

  /** Records with distinct hours have only one order by hour. */
  lemma {:induction false} SortedIsUnique(xs: seq<Record>, ys: seq<Record>)
    requires multiset(xs) == multiset(ys) && ByHour(xs) && ByHour(ys) && Distinct(xs)
    ensures xs == ys
  {
    SameLength(xs, ys);
    if xs != [] {
      SameLast(xs, ys);
      FrontsMatch(xs, ys);
      SortedIsUnique(xs[..|xs| - 1], ys[..|ys| - 1]);
      EqualByFront(xs, ys);
    }
  }

  lemma SameLength(xs: seq<Record>, ys: seq<Record>)
    requires multiset(xs) == multiset(ys)
    ensures |xs| == |ys|
  {
    assert |multiset(xs)| == |xs| && |multiset(ys)| == |ys|;
  }

  lemma FrontsMatch(xs: seq<Record>, ys: seq<Record>)
    requires multiset(xs) == multiset(ys) && xs != [] && ys != [] && xs[|xs| - 1] == ys[|ys| - 1]
    requires ByHour(xs) && ByHour(ys) && Distinct(xs)
    ensures multiset(xs[..|xs| - 1]) == multiset(ys[..|ys| - 1])
    ensures ByHour(xs[..|xs| - 1]) && ByHour(ys[..|ys| - 1]) && Distinct(xs[..|xs| - 1])
  {
    WithoutLast(xs);
    WithoutLast(ys);
  }

  lemma EqualByFront(xs: seq<Record>, ys: seq<Record>)
    requires xs != [] && ys != [] && xs[..|xs| - 1] == ys[..|ys| - 1] && xs[|xs| - 1] == ys[|ys| - 1]
    ensures xs == ys
  {
    assert xs == xs[..|xs| - 1] + [xs[|xs| - 1]] && ys == ys[..|ys| - 1] + [ys[|ys| - 1]];
  }

  lemma GroupingIsUnique(xs: seq<Record>, ys: seq<Record>, data: map<string, seq<Record>>,
                         other: map<string, seq<Record>>)
    requires multiset(xs) == multiset(ys) && Unique(xs) && IsGrouping(xs, data) && IsGrouping(ys, other)
    ensures data == other
  {
    forall i ensures (i in data <==> i in other) && (i in data ==> data[i] == other[i]) {
      OfPermuted(xs, ys, i);
      assert |multiset(Of(xs, i))| == |Of(xs, i)| && |multiset(Of(ys, i))| == |Of(ys, i)|;
      if i in data {
        OfDistinct(xs, i);
        SameMembers(data[i], Of(xs, i));
        SortedIsUnique(data[i], other[i]);
      }
    }
  }

  lemma SameMembers(xs: seq<Record>, ys: seq<Record>)
    requires multiset(xs) == multiset(ys) && Distinct(ys)
    ensures Distinct(xs)
  {
    forall r | r in xs ensures r in ys {
      assert r in multiset(ys);
    }
  }

  lemma {:induction false} SumSnoc(data: map<string, seq<Record>>, front: seq<string>, last: string, h: int, c: Counter)
    requires last in data && forall i :: i in front ==> i in data
    ensures SumAt(AllRises(data, front + [last]), h, c) ==
            SumAt(AllRises(data, front), h, c) + SumAt(Rises(data[last]), h, c)
    ensures CountAt(AllRises(data, front + [last]), h) ==
            CountAt(AllRises(data, front), h) + CountAt(Rises(data[last]), h)
  {
    hide SumAt, CountAt, Rises;
    assert (front + [last])[..|front|] == front;
    SumAtConcat(AllRises(data, front), Rises(data[last]), h, c);
  }

  lemma WithoutAt(order: seq<string>, k: nat)
    requires k < |order| - 1
    ensures var n := |order| - 1;
            order[..k] + order[k + 1..] == (order[..n][..k] + order[..n][k + 1..]) + [order[n]]
  {
  }

  /** Taking one instance out takes exactly its own rises out of every sum. */
  lemma {:induction false} SumWithout(data: map<string, seq<Record>>, order: seq<string>, k: nat, h: int, c: Counter)
    requires (forall i :: i in order ==> i in data) && k < |order|
    ensures var rest := order[..k] + order[k + 1..];
            && (forall i :: i in rest ==> i in data)
            && SumAt(AllRises(data, order), h, c) == SumAt(AllRises(data, rest), h, c) +
               SumAt(Rises(data[order[k]]), h, c)
            && CountAt(AllRises(data, order), h) == CountAt(AllRises(data, rest), h) + CountAt(Rises(data[order[k]]), h)
  {
    hide SumAt, CountAt, Rises, AllRises;
    var n := |order| - 1;
    var front, last := order[..n], order[n];
    assert order == front + [last];
    SumSnoc(data, front, last, h, c);
    if k == n {
      assert order[..k] + order[k + 1..] == front;
    } else {
      SumWithout(data, front, k, h, c);
      WithoutAt(order, k);
      SumSnoc(data, front[..k] + front[k + 1..], last, h, c);
    }
  }

  lemma {:induction false} OrderDoesNotMatter(data: map<string, seq<Record>>, xs: seq<string>, ys: seq<string>, h: int,
                                              c: Counter)
    requires (forall i :: i in xs <==> i in ys) && (forall i :: i in xs ==> i in data)
    requires (forall i, j :: 0 <= i < j < |xs| ==> xs[i] != xs[j]) &&
             (forall i, j :: 0 <= i < j < |ys| ==> ys[i] != ys[j])
    ensures SumAt(AllRises(data, xs), h, c) == SumAt(AllRises(data, ys), h, c)
    ensures CountAt(AllRises(data, xs), h) == CountAt(AllRises(data, ys), h)
  {
    hide SumAt, CountAt, Rises;
    if xs == [] {
      HeadIn(ys);
    } else {
      var n := |xs| - 1;
      assert xs[n] in ys;
      var k :| 0 <= k < |ys| && ys[k] == xs[n];
      var rest := ys[..k] + ys[k + 1..];
      SumWithout(data, xs, n, h, c);
      SumWithout(data, ys, k, h, c);
      assert xs[..n] + xs[n + 1..] == xs[..n];
      RestMembers(xs, n);
      RestMembers(ys, k);
      OrderDoesNotMatter(data, xs[..n], rest, h, c);
    }
  }

  lemma HeadIn(xs: seq<string>)
    ensures xs == [] || xs[0] in xs
  {
  }

  lemma RestMembers(xs: seq<string>, k: nat)
    requires k < |xs| && forall i, j :: 0 <= i < j < |xs| ==> xs[i] != xs[j]
    ensures var rest := xs[..k] + xs[k + 1..];
            && (forall i, j :: 0 <= i < j < |rest| ==> rest[i] != rest[j])
            && (forall x :: x in rest <==> x in xs && x != xs[k])
  {
    var rest := xs[..k] + xs[k + 1..];
    forall x | x in xs && x != xs[k] ensures x in rest {
      var i :| 0 <= i < |xs| && xs[i] == x;
      assert rest[if i < k then i else i - 1] == x;
    }
  }

  lemma {:induction false} ListIsUnique(xs: seq<Item>, ys: seq<Item>, hourly: map<int, Item>)
    requires IsListOf(xs, hourly) && IsListOf(ys, hourly)
    ensures xs == ys
  {
    if xs == [] {
      HeadHour(ys, hourly);
    } else {
      LastIsLatest(xs, ys, hourly);
      ListWithoutLast(xs, hourly);
      ListWithoutLast(ys, hourly);
      hide IsListOf, HasHour;
      ListIsUnique(xs[..|xs| - 1], ys[..|ys| - 1], hourly - {xs[|xs| - 1].hour});
      assert xs == xs[..|xs| - 1] + [xs[|xs| - 1]] && ys == ys[..|ys| - 1] + [ys[|ys| - 1]];
    }
  }

  /** Both lists end with the item of the latest hour. */
  lemma LastIsLatest(xs: seq<Item>, ys: seq<Item>, hourly: map<int, Item>)
    requires IsListOf(xs, hourly) && IsListOf(ys, hourly) && xs != []
    ensures ys != [] && ys[|ys| - 1] == xs[|xs| - 1]
  {
    assert HasHour(ys, xs[|xs| - 1].hour);
    assert HasHour(xs, ys[|ys| - 1].hour);
  }

  lemma HeadHour(xs: seq<Item>, hourly: map<int, Item>)
    requires IsListOf(xs, hourly)
    ensures xs == [] || xs[0].hour in hourly
  {
  }

  lemma ListWithoutLast(xs: seq<Item>, hourly: map<int, Item>)
    requires IsListOf(xs, hourly) && xs != []
    ensures IsListOf(xs[..|xs| - 1], hourly - {xs[|xs| - 1].hour})
  {
    var front := xs[..|xs| - 1];
    forall h | h in hourly - {xs[|xs| - 1].hour} ensures HasHour(front, h) {
      assert HasHour(xs, h);
      var i :| 0 <= i < |xs| && xs[i].hour == h;
      assert front[i].hour == h;
    }
  }

  /**
   Order-insensitivity: when no instance has two records of an hour, neither the order of the input
   nor the iteration order of the map can change the result.
   */
  lemma {:induction false} InputOrderDoesNotMatter(xs: seq<Record>, ys: seq<Record>, data: map<string, seq<Record>>,
                                                   other: map<string, seq<Record>>, order: seq<string>,
                                                   otherOrder: seq<string>, list: seq<Item>, otherList: seq<Item>,
                                                   hours: nat)
    requires multiset(xs) == multiset(ys) && Unique(xs)
    requires IsGrouping(xs, data) && IsGrouping(ys, other) && IsOrderOf(order, data) && IsOrderOf(otherOrder, other)
    requires IsListOf(list, Hourly(AllRises(data, order))) && IsListOf(otherList, Hourly(AllRises(other, otherOrder)))
    ensures Latest(list, hours) == Latest(otherList, hours)
  {
    hide SumAt, CountAt, Hourly, AllRises, IsListOf, IsGrouping, Unique;
    GroupingIsUnique(xs, ys, data, other);
    var a, b := Hourly(AllRises(data, order)), Hourly(AllRises(data, otherOrder));
    forall h ensures (h in a <==> h in b) && (h in a ==> a[h] == b[h]) {
      forall c ensures SumAt(AllRises(data, order), h, c) == SumAt(AllRises(data, otherOrder), h, c)
                    && CountAt(AllRises(data, order), h) == CountAt(AllRises(data, otherOrder), h) {
        OrderDoesNotMatter(data, order, otherOrder, h, c);
      }
      forall c
        ensures h in a && h in b ==>
                Total(a[h], c) == Total(b[h], c) && a[h].hour == b[h].hour && a[h].count == b[h].count
      {
        HourlyHolds(AllRises(data, order), h, c);
        HourlyHolds(AllRises(data, otherOrder), h, c);
      }
      HourlyHolds(AllRises(data, order), h, TcpRx);
      HourlyHolds(AllRises(data, otherOrder), h, TcpRx);
      if h in a {
        assert Total(a[h], TcpRx) == Total(b[h], TcpRx) && Total(a[h], TcpTx) == Total(b[h], TcpTx);
        assert Total(a[h], UdpRx) == Total(b[h], UdpRx) && Total(a[h], UdpTx) == Total(b[h], UdpTx);
      }
    }
    assert a == b;
    ListIsUnique(list, otherList, a);
  }

  // ------------------------------------------------------- shape and telescope

  lemma {:induction false} SumAtNonNegative(rises: seq<Rise>, h: int, c: Counter)
    requires forall r :: r in rises ==> RiseIn(r, c) >= 0
    ensures SumAt(rises, h, c) >= 0
  {
    if rises != [] {
      assert rises[|rises| - 1] in rises;
      SumAtNonNegative(rises[..|rises| - 1], h, c);
    }
  }

  lemma {:induction false} RisesNonNegative(group: seq<Record>, c: Counter)
    ensures forall r :: r in Rises(group) ==> RiseIn(r, c) >= 0
  {
    if |group| >= 2 {
      RisesNonNegative(group[..|group| - 1], c);
    }
  }

  lemma {:induction false} AllRisesNonNegative(data: map<string, seq<Record>>, order: seq<string>, c: Counter)
    requires forall i :: i in order ==> i in data
    ensures forall r :: r in AllRises(data, order) ==> RiseIn(r, c) >= 0
  {
    if order != [] {
      hide Rises;
      AllRisesNonNegative(data, order[..|order| - 1], c);
      RisesNonNegative(data[order[|order| - 1]], c);
    }
  }

  lemma TailMember(list: seq<Item>, k: nat, j: nat)
    requires k <= |list| && j < |list|
    ensures j >= k ==> list[j] in list[k..]
  {
    if j >= k {
      assert list[k..][j - k] == list[j];
    }
  }

  /** Every item that the cut-off drops is older than every item it keeps. */
  lemma LatestAreLatest(list: seq<Item>, hours: nat, item: Item, i: nat)
    requires forall i, j :: 0 <= i < j < |list| ==> list[i].hour < list[j].hour
    requires item in list && item !in Latest(list, hours) && i < |Latest(list, hours)|
    ensures item.hour < Latest(list, hours)[i].hour
  {
    var k := |list| - |Latest(list, hours)|;
    assert Latest(list, hours) == list[k..] && list[k..][i] == list[k + i];
    var j :| 0 <= j < |list| && list[j] == item;
    TailMember(list, k, j);
  }

  /** The result has at most `hours` items, none negative, strictly ascending, and every hour left out is older. */
  lemma {:induction false} TrendShape(data: map<string, seq<Record>>, order: seq<string>, list: seq<Item>, hours: nat,
                                      i: nat, c: Counter)
    requires IsOrderOf(order, data) && IsListOf(list, Hourly(AllRises(data, order))) && i < |Latest(list, hours)|
    ensures var trend := Latest(list, hours);
            && |trend| <= hours && Total(trend[i], c) >= 0 && trend[i].count > 0
            && (forall j :: i < j < |trend| ==> trend[i].hour < trend[j].hour)
            && (forall item :: item in list && item !in trend ==> item.hour < trend[i].hour)
  {
    hide AllRises, Hourly, SumAt, CountAt, HasHour;
    var rises, trend := AllRises(data, order), Latest(list, hours);
    HourlyHolds(rises, trend[i].hour, c);
    AllRisesNonNegative(data, order, c);
    SumAtNonNegative(rises, trend[i].hour, c);
    forall item | item in list && item !in trend ensures item.hour < trend[i].hour {
      LatestAreLatest(list, hours, item, i);
    }
  }

  function SumOf(rises: seq<Rise>, c: Counter): int {
    if rises == [] then 0 else SumOf(rises[..|rises| - 1], c) + RiseIn(rises[|rises| - 1], c)
  }

  /** A counter summed over a list of items. */
  function ListSum(list: seq<Item>, c: Counter): int {
    if list == [] then 0 else ListSum(list[..|list| - 1], c) + Total(list[|list| - 1], c)
  }

  /** Last minus first reading, over the given instances. */
  function Span(data: map<string, seq<Record>>, order: seq<string>, c: Counter): int
    requires forall i :: i in order ==> i in data && data[i] != []
  {
    if order == [] then 0
    else
      var last := order[|order| - 1];
      assert last in order;
      Span(data, order[..|order| - 1], c) + Reading(data[last][|data[last]| - 1], c) - Reading(data[last][0], c)
  }

  ghost predicate NeverFalls(group: seq<Record>, c: Counter) {
    forall i :: 1 <= i < |group| ==> Reading(group[i - 1], c) <= Reading(group[i], c)
  }

  lemma {:induction false} SumOfConcat(xs: seq<Rise>, ys: seq<Rise>, c: Counter)
    ensures SumOf(xs + ys, c) == SumOf(xs, c) + SumOf(ys, c)
  {
    if ys == [] {
      assert xs + ys == xs;
    } else {
      var zs := xs + ys;
      assert zs[..|zs| - 1] == xs + ys[..|ys| - 1] && zs[|zs| - 1] == ys[|ys| - 1];
      SumOfConcat(xs, ys[..|ys| - 1], c);
    }
  }

  /** The rises of one group exceed the span by exactly what its falls bring the counter down. */
  lemma {:induction false} GroupTelescopes(group: seq<Record>, c: Counter)
    requires group != []
    ensures SumOf(Rises(group), c) == Reading(group[|group| - 1], c) - Reading(group[0], c) + Fallen(group, c)
    ensures Fallen(group, c) == 0 <==> NeverFalls(group, c)
  {
    if |group| >= 2 {
      var n := |group| - 1;
      var front := group[..n];
      GroupTelescopes(front, c);
      RisesSnoc(group, c);
      FallsSnoc(group, c);
      hide Rises, SumOf, NeverFalls;
    }
  }

  lemma RisesSnoc(group: seq<Record>, c: Counter)
    requires |group| >= 2
    ensures var n := |group| - 1;
            SumOf(Rises(group), c) == SumOf(Rises(group[..n]), c) + Up(Reading(group[n - 1], c), Reading(group[n], c))
  {
    var rises := Rises(group[..|group| - 1]);
    var last := RiseOf(group[|group| - 2], group[|group| - 1]);
    assert (rises + [last])[..|rises|] == rises;
  }

  lemma FallsSnoc(group: seq<Record>, c: Counter)
    requires |group| >= 2
    ensures var n := |group| - 1;
            NeverFalls(group, c) <==> NeverFalls(group[..n], c) && Reading(group[n - 1], c) <= Reading(group[n], c)
  {
    var n := |group| - 1;
    var front := group[..n];
    assert forall i :: 0 <= i < n ==> front[i] == group[i];
  }

  lemma {:induction false} GroupsTelescope(data: map<string, seq<Record>>, order: seq<string>, c: Counter)
    requires forall i :: i in order ==> i in data && data[i] != []
    ensures SumOf(AllRises(data, order), c) == Span(data, order, c) + Falls(data, order, c)
    ensures Falls(data, order, c) == 0 <==> forall i :: i in order ==> NeverFalls(data[i], c)
  {
    if order != [] {
      hide Rises, SumOf, NeverFalls, Fallen;
      var front, last := order[..|order| - 1], order[|order| - 1];
      assert order == front + [last];
      GroupsTelescope(data, front, c);
      GroupTelescopes(data[last], c);
      SumOfConcat(AllRises(data, front), Rises(data[last]), c);
    } else {
      hide NeverFalls;
    }
  }

  function SumOver(hs: seq<int>, rises: seq<Rise>, c: Counter): int {
    if hs == [] then 0 else SumOver(hs[..|hs| - 1], rises, c) + SumAt(rises, hs[|hs| - 1], c)
  }

  lemma {:induction false} SumOverStep(hs: seq<int>, rises: seq<Rise>, c: Counter)
    requires rises != [] && forall i, j :: 0 <= i < j < |hs| ==> hs[i] != hs[j]
    ensures var front, last := rises[..|rises| - 1], rises[|rises| - 1];
            SumOver(hs, rises, c) == SumOver(hs, front, c) + (if last.hour in hs then RiseIn(last, c) else 0)
  {
    if hs != [] {
      var n := |hs| - 1;
      SumOverStep(hs[..n], rises, c);
      assert hs == hs[..n] + [hs[n]];
    }
  }

  /** Summing per hour and then over the hours is summing everything. */
  lemma {:induction false} SumOverAll(hs: seq<int>, rises: seq<Rise>, c: Counter)
    requires forall i, j :: 0 <= i < j < |hs| ==> hs[i] != hs[j]
    requires forall r :: r in rises ==> r.hour in hs
    ensures SumOver(hs, rises, c) == SumOf(rises, c)
  {
    if rises == [] {
      SumOverNone(hs, c);
    } else {
      hide SumOver;
      assert rises[|rises| - 1] in rises;
      SumOverStep(hs, rises, c);
      SumOverAll(hs, rises[..|rises| - 1], c);
    }
  }

  lemma {:induction false} SumOverNone(hs: seq<int>, c: Counter)
    ensures SumOver(hs, [], c) == 0
  {
    if hs != [] {
      SumOverNone(hs[..|hs| - 1], c);
    }
  }

  function HoursOf(list: seq<Item>): seq<int> {
    seq(|list|, i requires 0 <= i < |list| => list[i].hour)
  }

  lemma {:induction false} ListSumIsSumOver(list: seq<Item>, rises: seq<Rise>, c: Counter)
    requires forall i :: 0 <= i < |list| ==> Total(list[i], c) == SumAt(rises, list[i].hour, c)
    ensures ListSum(list, c) == SumOver(HoursOf(list), rises, c)
  {
    if list != [] {
      hide SumAt;
      var front := list[..|list| - 1];
      ListSumIsSumOver(front, rises, c);
      assert HoursOf(list)[..|list| - 1] == HoursOf(front);
    }
  }

  lemma {:induction false} CountAtMember(rises: seq<Rise>, r: Rise)
    requires r in rises
    ensures CountAt(rises, r.hour) > 0
  {
    var front, last := rises[..|rises| - 1], rises[|rises| - 1];
    assert rises == front + [last];
    if last != r {
      CountAtMember(front, r);
    }
  }

  /**
   Telescoping: over all hours before the cut-off, a counter sums to the total of last minus first
   reading over the instances plus all that its falls bring it down, so to that total alone exactly
   when it never falls.
   */
  lemma {:induction false} TrendTelescopes(records: seq<Record>, data: map<string, seq<Record>>, order: seq<string>,
                                           list: seq<Item>, c: Counter)
    requires IsGrouping(records, data) && IsOrderOf(order, data) && IsListOf(list, Hourly(AllRises(data, order)))
    ensures forall i :: i in order ==> i in data && data[i] != []
    ensures ListSum(list, c) == Span(data, order, c) + Falls(data, order, c)
    ensures ListSum(list, c) == Span(data, order, c) <==> forall i :: i in order ==> NeverFalls(data[i], c)
  {
    hide AllRises, Hourly, SumAt, CountAt, SumOver, SumOf, NeverFalls, Of, HasHour, Span, Falls, ListSum;
    forall i | i in order ensures i in data && data[i] != [] {
      assert |multiset(data[i])| == |data[i]|;
    }
    var rises := AllRises(data, order);
    forall i | 0 <= i < |list| ensures Total(list[i], c) == SumAt(rises, list[i].hour, c) {
      HourlyHolds(rises, list[i].hour, c);
    }
    ListSumIsSumOver(list, rises, c);
    forall r | r in rises ensures r.hour in HoursOf(list) {
      CountAtMember(rises, r);
      HourlyHolds(rises, r.hour, c);
      HourListed(list, r.hour) by {
        assert HasHour(list, r.hour);
      }
    }
    SumOverAll(HoursOf(list), rises, c);
    GroupsTelescope(data, order, c);
  }

  lemma HourListed(list: seq<Item>, h: int)
    requires HasHour(list, h)
    ensures h in HoursOf(list)
  {
    var i :| 0 <= i < |list| && list[i].hour == h;
    assert HoursOf(list)[i] == h;
  }
}
