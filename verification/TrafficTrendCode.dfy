/** `processTrafficRecords`: the loops that group, sort, difference, sum and cut off. */
module TrafficTrendCode {
  import opened TrafficTrend

  /** Groups the records by instance, in input order. */
  method Group(records: seq<Record>) returns (data: map<string, seq<Record>>)
    ensures forall i :: i in data <==> Of(records, i) != []
    ensures forall i :: i in data ==> data[i] == Of(records, i)
  {
    data := map[];
    for n := 0 to |records|
      invariant forall i :: i in data <==> Of(records[..n], i) != []
      invariant forall i :: i in data ==> data[i] == Of(records[..n], i)
    {
      var record := records[n];
      assert records[..n + 1][..n] == records[..n];
      var group := if record.instance in data then data[record.instance] else [];
      data := data[record.instance := group + [record]];
    }
    assert records[..|records|] == records;
  }

  /** `sort.Slice` by hour: some arrangement of the group in ascending order. */
  method SortByHour(group: seq<Record>) returns (sorted: seq<Record>)
    ensures multiset(sorted) == multiset(group) && ByHour(sorted)
  {
    sorted := [];
    for n := 0 to |group|
      invariant multiset(sorted) == multiset(group[..n]) && ByHour(sorted)
    {
      assert group[..n + 1] == group[..n] + [group[n]];
      sorted := InsertByHour(sorted, group[n]);
    }
    assert group[..|group|] == group;
  }

  method InsertByHour(group: seq<Record>, r: Record) returns (longer: seq<Record>)
    requires ByHour(group)
    ensures multiset(longer) == multiset(group) + multiset{r} && ByHour(longer)
  {
    var k := |group|;
    while k > 0 && group[k - 1].hour > r.hour
      invariant 0 <= k <= |group| && forall i :: k <= i < |group| ==> group[i].hour > r.hour
    {
      k := k - 1;
    }
    longer := group[..k] + [r] + group[k..];
    Spliced(group, k, r);
  }

  lemma Spliced(group: seq<Record>, k: nat, r: Record)
    requires k <= |group| && ByHour(group)
    requires (k > 0 ==> group[k - 1].hour <= r.hour) && forall i :: k <= i < |group| ==> group[i].hour > r.hour
    ensures var longer := group[..k] + [r] + group[k..];
            multiset(longer) == multiset(group) + multiset{r} && ByHour(longer)
  {
    SplicedContents(group, k, r);
    var longer := group[..k] + [r] + group[k..];
    assert forall i :: 0 <= i < k ==> group[i].hour <= r.hour;
    forall i, j | 0 <= i < j < |longer| ensures longer[i].hour <= longer[j].hour {
      At(group, k, r, i);
      At(group, k, r, j);
      hide *;
    }
  }

  lemma SplicedContents(group: seq<Record>, k: nat, r: Record)
    requires k <= |group|
    ensures multiset(group[..k] + [r] + group[k..]) == multiset(group) + multiset{r}
  {
    var a, b := group[..k], group[k..];
    assert group == a + b;
    assert multiset(a + b) == multiset(a) + multiset(b);
    assert multiset(a + [r]) == multiset(a) + multiset{r};
    assert multiset((a + [r]) + b) == multiset(a + [r]) + multiset(b);
  }

  /** What stands where after an insertion at k. */
  lemma At<T>(xs: seq<T>, k: nat, x: T, i: nat)
    requires k <= |xs| && i <= |xs|
    ensures (xs[..k] + [x] + xs[k..])[i] == if i < k then xs[i] else if i == k then x else xs[i - 1]
  {
  }

  /** The map's values sorted by hour. */
  method ListItems(hourly: map<int, Item>) returns (list: seq<Item>)
    requires forall h :: h in hourly ==> hourly[h].hour == h
    ensures IsListOf(list, hourly)
  {
    list := [];
    var pending := hourly.Keys;
    while pending != {}
      invariant pending <= hourly.Keys && IsListOf(list, hourly - pending)
      decreases pending
    {
      assert exists h :: h in pending by {
        assert (forall h :: h in hourly ==> h !in pending) ==> pending <= {};
      }
      var h :| h in pending;
      list := InsertItem(list, hourly - pending, hourly[h]);
      pending := pending - {h};
      assert hourly - pending == (hourly - (pending + {h}))[h := hourly[h]];
    }
    assert hourly - {} == hourly;
  }

  method InsertItem(list: seq<Item>, hourly: map<int, Item>, item: Item) returns (longer: seq<Item>)
    requires IsListOf(list, hourly) && item.hour !in hourly
    ensures IsListOf(longer, hourly[item.hour := item])
  {
    hide HasHour;
    var k := |list|;
    while k > 0 && list[k - 1].hour > item.hour
      invariant 0 <= k <= |list| && forall i :: k <= i < |list| ==> list[i].hour > item.hour
    {
      k := k - 1;
    }
    longer := list[..k] + [item] + list[k..];
    assert k > 0 ==> list[k - 1] == hourly[list[k - 1].hour];
    assert FitsAt(list, k, item);
    hide IsListOf, FitsAt;
    SplicedItem(list, hourly, k, item);
  }

  /** Where an item may stand so that the list stays ascending. */
  ghost predicate FitsAt(list: seq<Item>, k: nat, item: Item) {
    k <= |list| && (forall i :: 0 <= i < k ==> list[i].hour < item.hour) && forall i :: k <= i < |list| ==>
      list[i].hour > item.hour
  }

  lemma SplicedHas(list: seq<Item>, k: nat, item: Item, h: int)
    requires k <= |list|
    ensures HasHour(list[..k] + [item] + list[k..], h) <==> HasHour(list, h) || h == item.hour
  {
    var longer := list[..k] + [item] + list[k..];
    At(list, k, item, k);
    if HasHour(list, h) {
      var i :| 0 <= i < |list| && list[i].hour == h;
      At(list, k, item, if i < k then i else i + 1);
    }
    if HasHour(longer, h) {
      var i :| 0 <= i < |longer| && longer[i].hour == h;
      At(list, k, item, i);
    }
  }

  lemma SplicedAscends(list: seq<Item>, k: nat, item: Item)
    requires FitsAt(list, k, item) && forall i, j :: 0 <= i < j < |list| ==> list[i].hour < list[j].hour
    ensures var longer := list[..k] + [item] + list[k..];
            forall i, j :: 0 <= i < j < |longer| ==> longer[i].hour < longer[j].hour
  {
    var longer := list[..k] + [item] + list[k..];
    forall i, j | 0 <= i < j < |longer| ensures longer[i].hour < longer[j].hour {
      At(list, k, item, i);
      At(list, k, item, j);
    }
  }

  lemma SplicedItem(list: seq<Item>, hourly: map<int, Item>, k: nat, item: Item)
    requires IsListOf(list, hourly) && item.hour !in hourly && FitsAt(list, k, item)
    ensures IsListOf(list[..k] + [item] + list[k..], hourly[item.hour := item])
  {
    SplicedAscends(list, k, item);
    hide FitsAt, HasHour;
    var longer := list[..k] + [item] + list[k..];
    forall i | 0 <= i < |longer|
      ensures longer[i].hour in hourly[item.hour := item] && longer[i] == hourly[item.hour := item][longer[i].hour]
    {
      At(list, k, item, i);
    }
    forall h | h in hourly[item.hour := item] ensures HasHour(longer, h) {
      SplicedHas(list, k, item, h);
    }
  }

  /** The item counts the pairs that end at its hour and adds up the differences of those that do not fall. */
  ghost predicate ItemHolds(data: map<string, seq<Record>>, order: seq<string>, item: Item)
    requires forall i :: i in order ==> i in data
  {
    item.count == Pairs(data, order, item.hour) && forall c :: Total(item, c) == Gains(data, order, item.hour, c)
  }

  lemma {:induction false} ListMeans(data: map<string, seq<Record>>, order: seq<string>, list: seq<Item>)
    requires (forall i :: i in order ==> i in data) && IsListOf(list, Hourly(AllRises(data, order)))
    ensures forall h :: HasHour(list, h) <==> Pairs(data, order, h) > 0
    ensures forall i :: 0 <= i < |list| ==> ItemHolds(data, order, list[i])
  {
    hide AllRises, Hourly, Pairs, Gains, Total;
    forall h ensures HasHour(list, h) <==> Pairs(data, order, h) > 0 {
      ItemMeans(data, order, h, TcpRx);
    }
    forall i | 0 <= i < |list| ensures ItemHolds(data, order, list[i]) {
      forall c ensures list[i].count == Pairs(data, order, list[i].hour)
                    && Total(list[i], c) == Gains(data, order, list[i].hour, c) {
        ItemMeans(data, order, list[i].hour, c);
      }
      assert list[i].count == Pairs(data, order, list[i].hour) by {
        ItemMeans(data, order, list[i].hour, TcpRx);
      }
    }
  }

  /** Also reports the groups and the order in which the map gave them; the caller controls neither. */
  method ProcessTrafficRecords(records: seq<Record>, hours: nat)
    returns (trend: seq<Item>, data: map<string, seq<Record>>, order: seq<string>, list: seq<Item>)
    ensures IsGrouping(records, data) && IsOrderOf(order, data)
    ensures IsListOf(list, Hourly(AllRises(data, order))) && trend == Latest(list, hours)
    ensures forall h :: HasHour(list, h) <==> Pairs(data, order, h) > 0
    ensures forall i :: 0 <= i < |list| ==> ItemHolds(data, order, list[i])
  {
    hide Of, Rises, AllRises, Hourly;
    var grouped := Group(records);
    data, order := map[], [];
    var pending := grouped.Keys;
    var hourly: map<int, Item> := map[];
    assert AllRises(data, order) == [] && Hourly([]) == map[] by {
      NoRises(data);
    }
    while pending != {}
      invariant pending <= grouped.Keys && data.Keys == grouped.Keys - pending
      invariant forall i :: i in data ==> multiset(data[i]) == multiset(grouped[i]) && ByHour(data[i])
      invariant IsOrderOf(order, data)
      invariant hourly == Hourly(AllRises(data, order))
      decreases pending
    {
      var instance :| instance in pending;
      pending := pending - {instance};
      var hourlyRecords := SortByHour(grouped[instance]);
      MoreData(data, order, instance, hourlyRecords);
      hourly := AddGroup(hourly, AllRises(data, order), hourlyRecords);
      data, order := data[instance := hourlyRecords], order + [instance];
    }
    forall h | h in hourly ensures hourly[h].hour == h {
      HourlyHolds(AllRises(data, order), h, TcpRx);
    }
    list := ListItems(hourly);
    ListMeans(data, order, list);
    trend := list;
    if |list| > hours {
      trend := list[|list| - hours..];
    }
  }

  lemma {:induction false} NoRises(data: map<string, seq<Record>>)
    ensures AllRises(data, []) == [] && Hourly([]) == map[]
  {
  }

  lemma {:induction false} SameRises(data: map<string, seq<Record>>, other: map<string, seq<Record>>,
                                     order: seq<string>)
    requires forall i :: i in order ==> i in data && i in other && data[i] == other[i]
    ensures AllRises(data, order) == AllRises(other, order)
  {
    if order != [] {
      assert order[|order| - 1] in order;
      SameRises(data, other, order[..|order| - 1]);
    }
  }

  lemma MoreData(data: map<string, seq<Record>>, order: seq<string>, instance: string, group: seq<Record>)
    requires IsOrderOf(order, data) && instance !in data
    ensures IsOrderOf(order + [instance], data[instance := group])
    ensures AllRises(data[instance := group], order + [instance]) == AllRises(data, order) + Rises(group)
  {
    hide Rises;
    assert (order + [instance])[..|order|] == order;
    SameRises(data, data[instance := group], order);
  }

  /** One pass of the inner loop. */
  method AddPair(before: map<int, Item>, previous: Record, current: Record) returns (hourly: map<int, Item>)
    ensures hourly == AddRise(before, RiseOf(previous, current))
  {
    var item := if current.hour in before then before[current.hour] else Item(current.hour, 0, 0, 0, 0, 0);
    var diff := current.tcpRx - previous.tcpRx;
    if diff >= 0 { item := item.(tcpRx := item.tcpRx + diff); }
    diff := current.tcpTx - previous.tcpTx;
    if diff >= 0 { item := item.(tcpTx := item.tcpTx + diff); }
    diff := current.udpRx - previous.udpRx;
    if diff >= 0 { item := item.(udpRx := item.udpRx + diff); }
    diff := current.udpTx - previous.udpTx;
    if diff >= 0 { item := item.(udpTx := item.udpTx + diff); }
    item := item.(count := item.count + 1);
    hourly := before[current.hour := item];
  }

  function TotalIn(hourly: map<int, Item>, h: int, c: Counter): int {
    if h in hourly then Total(hourly[h], c) else 0
  }

  function CountIn(hourly: map<int, Item>, h: int): nat {
    if h in hourly then hourly[h].count else 0
  }

  lemma {:induction false} GroupMeans(rises: seq<Rise>, group: seq<Record>)
    ensures var before, after := Hourly(rises), Hourly(rises + Rises(group));
            && (forall h :: h in after <==> h in before || PairsAt(group, h) > 0)
            && (forall h :: CountIn(after, h) == CountIn(before, h) + PairsAt(group, h))
            && (forall h, c :: TotalIn(after, h, c) == TotalIn(before, h, c) + GainAt(group, h, c))
  {
    hide Hourly, Rises, SumAt, CountAt, PairsAt, GainAt, Total;
    var before, after := Hourly(rises), Hourly(rises + Rises(group));
    forall h, c
      ensures (h in after <==> h in before || PairsAt(group, h) > 0)
           && CountIn(after, h) == CountIn(before, h) + PairsAt(group, h)
           && TotalIn(after, h, c) == TotalIn(before, h, c) + GainAt(group, h, c)
    {
      HourlyHolds(rises, h, c);
      HourlyHolds(rises + Rises(group), h, c);
      SumAtConcat(rises, Rises(group), h, c);
      GroupGains(group, h, c);
    }
    forall h
      ensures (h in after <==> h in before || PairsAt(group, h) > 0)
           && CountIn(after, h) == CountIn(before, h) + PairsAt(group, h)
    {
      assert TotalIn(after, h, TcpRx) == TotalIn(before, h, TcpRx) + GainAt(group, h, TcpRx);
    }
  }

  /** The inner loop: adds each neighbouring pair of one instance to its hour. */
  method AddGroup(before: map<int, Item>, ghost rises: seq<Rise>, hourlyRecords: seq<Record>)
    returns (hourly: map<int, Item>)
    requires before == Hourly(rises)
    ensures hourly == Hourly(rises + Rises(hourlyRecords))
    ensures forall h :: h in hourly <==> h in before || PairsAt(hourlyRecords, h) > 0
    ensures forall h :: CountIn(hourly, h) == CountIn(before, h) + PairsAt(hourlyRecords, h)
    ensures forall h, c :: TotalIn(hourly, h, c) == TotalIn(before, h, c) + GainAt(hourlyRecords, h, c)
  {
    GroupMeans(rises, hourlyRecords);
    hourly := before;
    assert rises + [] == rises;
    if |hourlyRecords| < 2 {
      return;
    }
    assert Rises(hourlyRecords[..1]) == [];
    hide Rises, Hourly, AddRise;
    for i := 1 to |hourlyRecords|
      invariant hourly == Hourly(rises + Rises(hourlyRecords[..i]))
    {
      hourly := AddPair(hourly, hourlyRecords[i - 1], hourlyRecords[i]);
      OneMoreRise(rises, hourlyRecords, i);
    }
    assert hourlyRecords[..|hourlyRecords|] == hourlyRecords;
  }

  lemma {:induction false} OneMoreRise(rises: seq<Rise>, group: seq<Record>, i: nat)
    requires 1 <= i < |group|
    ensures Hourly(rises + Rises(group[..i + 1])) == AddRise(Hourly(rises + Rises(group[..i])),
                                                             RiseOf(group[i - 1], group[i]))
  {
    var now, next := rises + Rises(group[..i]), rises + Rises(group[..i + 1]);
    assert group[..i + 1][..i] == group[..i];
    assert next == now + [RiseOf(group[i - 1], group[i])];
    assert next[..|next| - 1] == now;
  }
}
