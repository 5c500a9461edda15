/**
 The traffic history pipeline of internal/traffic/history.go:
 hour cache, bounded channel, write buffer and table upsert, as a transition system.
 */
module TrafficHistory {
  import opened Sequences
  import opened Wrappers
  import opened Text
  import Decimal

  /** What the cache and the table group by: endpoint, instance and hour. */
  datatype Key = Key(endpoint: int, instance: string, hour: int)

  /** The increments of one record, with its sample count. */
  datatype Delta = Delta(tcpRx: int, tcpTx: int, udpRx: int, udpTx: int, samples: int)

  /** The absolute counters at the time of the last point. */
  datatype Totals = Totals(tcpRx: int, tcpTx: int, udpRx: int, udpTx: int)

  datatype Record = Record(key: Key, delta: Delta, totals: Totals)

  const ZERO := Delta(0, 0, 0, 0, 0)

  function Plus(a: Delta, b: Delta): Delta {
    Delta(a.tcpRx + b.tcpRx, a.tcpTx + b.tcpTx, a.udpRx + b.udpRx, a.udpTx + b.udpTx, a.samples + b.samples)
  }

  lemma PlusLaws(a: Delta, b: Delta, c: Delta)
    ensures Plus(Plus(a, b), c) == Plus(a, Plus(b, c)) && Plus(a, b) == Plus(b, a) && Plus(a, ZERO) == a
  {
  }

  /** All increments recorded for a key. */
  function SumFor(rs: seq<Record>, k: Key): Delta {
    if rs == [] then ZERO
    else if rs[|rs| - 1].key == k then Plus(SumFor(rs[..|rs| - 1], k), rs[|rs| - 1].delta)
    else SumFor(rs[..|rs| - 1], k)
  }

  /** The absolute counters of the last record for a key. */
  function LastFor(rs: seq<Record>, k: Key): Option<Totals> {
    if rs == [] then None
    else if rs[|rs| - 1].key == k then Some(rs[|rs| - 1].totals)
    else LastFor(rs[..|rs| - 1], k)
  }

  function Later(newer: Option<Totals>, older: Option<Totals>): Option<Totals> {
    if newer.Some? then newer else older
  }

  lemma {:induction false} ForSnoc(rs: seq<Record>, r: Record, k: Key)
    ensures SumFor(rs + [r], k) == if r.key == k then Plus(SumFor(rs, k), r.delta) else SumFor(rs, k)
    ensures LastFor(rs + [r], k) == if r.key == k then Some(r.totals) else LastFor(rs, k)
  {
    assert (rs + [r])[..|rs|] == rs;
  }

  lemma {:induction false} ForNone(k: Key)
    ensures SumFor([], k) == ZERO && LastFor([], k) == None
  {
  }

  lemma {:induction false} SumOfConcat(xs: seq<Record>, ys: seq<Record>, k: Key)
    ensures SumFor(xs + ys, k) == Plus(SumFor(xs, k), SumFor(ys, k))
  {
    hide SumFor, Plus;
    if ys == [] {
      assert xs + ys == xs;
      ForNone(k);
      PlusLaws(SumFor(xs, k), ZERO, ZERO);
    } else {
      var front, last := ys[..|ys| - 1], ys[|ys| - 1];
      SumOfConcat(xs, front, k);
      ForSnoc(xs + front, last, k);
      ForSnoc(front, last, k);
      PlusLaws(SumFor(xs, k), SumFor(front, k), last.delta);
      assert xs + ys == (xs + front) + [last] && ys == front + [last];
    }
  }

  lemma {:induction false} LastOfConcat(xs: seq<Record>, ys: seq<Record>, k: Key)
    ensures LastFor(xs + ys, k) == Later(LastFor(ys, k), LastFor(xs, k))
  {
    hide LastFor;
    if ys == [] {
      assert xs + ys == xs;
      ForNone(k);
    } else {
      var front, last := ys[..|ys| - 1], ys[|ys| - 1];
      LastOfConcat(xs, front, k);
      ForSnoc(xs + front, last, k);
      ForSnoc(front, last, k);
      assert xs + ys == (xs + front) + [last] && ys == front + [last];
    }
  }

  // ---------------------------------------------------------- the table write

  /** The first row with this key, or -1. */
  function FindRow(rows: seq<Record>, k: Key): (i: int)
    ensures -1 <= i < |rows|
    ensures i >= 0 ==> rows[i].key == k
    ensures forall j :: 0 <= j < (if i < 0 then |rows| else i) ==> rows[j].key != k
  {
    if rows == [] then -1
    else if rows[0].key == k then 0
    else
      var i := FindRow(rows[1..], k);
      if i == -1 then -1 else i + 1
  }

  /** One pass of the source's loop: insert, or add the increments and take over the counters. */
  function Upsert(rows: seq<Record>, r: Record): seq<Record> {
    var i := FindRow(rows, r.key);
    if i == -1 then rows + [r] else rows[i := Record(r.key, Plus(rows[i].delta, r.delta), r.totals)]
  }

  function UpsertAll(rows: seq<Record>, rs: seq<Record>): seq<Record> {
    if rs == [] then rows else Upsert(UpsertAll(rows, rs[..|rs| - 1]), rs[|rs| - 1])
  }

  /** The table has no unique index; this is what the upserts keep. */
  ghost predicate UniqueKeys(rows: seq<Record>) {
    forall i, j :: 0 <= i < j < |rows| ==> rows[i].key != rows[j].key
  }

  lemma {:induction false} AbsentKey(rows: seq<Record>, k: Key)
    requires forall i :: 0 <= i < |rows| ==> rows[i].key != k
    ensures SumFor(rows, k) == ZERO && LastFor(rows, k) == None
  {
    if rows != [] {
      AbsentKey(rows[..|rows| - 1], k);
    }
  }

  /** With unique keys the row at a position holds everything known about its key. */
  lemma {:induction false} RowHoldsKey(rows: seq<Record>, i: nat)
    requires UniqueKeys(rows) && i < |rows|
    ensures SumFor(rows, rows[i].key) == rows[i].delta && LastFor(rows, rows[i].key) == Some(rows[i].totals)
  {
    hide SumFor, LastFor, Plus;
    var k, before, after := rows[i].key, rows[..i], rows[i + 1..];
    AbsentKey(before, k);
    AbsentKey(after, k);
    AroundRow(before, rows[i], after, k);
    OneRecord(rows[i], k);
    assert rows == before + [rows[i]] + after;
    PlusLaws(ZERO, rows[i].delta, ZERO);
    PlusLaws(rows[i].delta, ZERO, ZERO);
  }

  /** A row between two parts of a table. */
  lemma {:induction false} AroundRow(before: seq<Record>, r: Record, after: seq<Record>, k: Key)
    ensures SumFor(before + [r] + after, k) == Plus(Plus(SumFor(before, k), SumFor([r], k)), SumFor(after, k))
    ensures LastFor(before + [r] + after, k) == Later(LastFor(after, k), Later(LastFor([r], k), LastFor(before, k)))
  {
    hide SumFor, LastFor, Plus;
    SumOfConcat(before, [r], k);
    SumOfConcat(before + [r], after, k);
    LastOfConcat(before, [r], k);
    LastOfConcat(before + [r], after, k);
  }

  lemma UpdateRow(rows: seq<Record>, i: nat, r: Record, k: Key)
    requires i < |rows| && r.key == rows[i].key && k != r.key
    ensures SumFor(rows[i := r], k) == SumFor(rows, k) && LastFor(rows[i := r], k) == LastFor(rows, k)
  {
    hide SumFor, LastFor, Plus;
    var before, after := rows[..i], rows[i + 1..];
    assert rows == before + [rows[i]] + after && rows[i := r] == before + [r] + after;
    AroundRow(before, rows[i], after, k);
    AroundRow(before, r, after, k);
    OneRecord(rows[i], k);
    OneRecord(r, k);
  }

  /** One upsert keeps one row per key, adds exactly the record's increments and takes over its counters. */
  lemma {:induction false} UpsertMeans(rows: seq<Record>, r: Record, k: Key)
    requires UniqueKeys(rows)
    ensures UniqueKeys(Upsert(rows, r))
    ensures SumFor(Upsert(rows, r), k) == Plus(SumFor(rows, k), SumFor([r], k))
    ensures LastFor(Upsert(rows, r), k) == Later(LastFor([r], k), LastFor(rows, k))
  {
    var i := FindRow(rows, r.key);
    if i == -1 {
      SumOfConcat(rows, [r], k);
      LastOfConcat(rows, [r], k);
    } else {
      var row := Record(r.key, Plus(rows[i].delta, r.delta), r.totals);
      assert UniqueKeys(rows[i := row]);
      if k == r.key {
        RowHoldsKey(rows, i);
        RowHoldsKey(rows[i := row], i);
      } else {
        UpdateRow(rows, i, row, k);
        AbsentKey([r], k);
      }
    }
  }

  /** A committed batch keeps one row per key and adds, key by key, exactly what the batch holds. */
  lemma {:induction false} UpsertAllMeans(rows: seq<Record>, rs: seq<Record>, k: Key)
    requires UniqueKeys(rows)
    ensures UniqueKeys(UpsertAll(rows, rs))
    ensures SumFor(UpsertAll(rows, rs), k) == Plus(SumFor(rows, k), SumFor(rs, k))
    ensures LastFor(UpsertAll(rows, rs), k) == Later(LastFor(rs, k), LastFor(rows, k))
  {
    if rs == [] {
      PlusLaws(SumFor(rows, k), ZERO, ZERO);
    } else {
      hide Upsert, SumFor, LastFor, UniqueKeys, Plus;
      var front, last := rs[..|rs| - 1], rs[|rs| - 1];
      UpsertAllMeans(rows, front, k);
      UpsertMeans(UpsertAll(rows, front), last, k);
      SplitLast(rs, k);
      PlusLaws(SumFor(rows, k), SumFor(front, k), SumFor([last], k));
    }
  }

  lemma {:induction false} SplitLast(rs: seq<Record>, k: Key)
    requires rs != []
    ensures SumFor(rs, k) == Plus(SumFor(rs[..|rs| - 1], k), SumFor([rs[|rs| - 1]], k))
    ensures LastFor(rs, k) == Later(LastFor([rs[|rs| - 1]], k), LastFor(rs[..|rs| - 1], k))
  {
    OneRecord(rs[|rs| - 1], k);
  }

  lemma {:induction false} OneRecord(r: Record, k: Key)
    ensures SumFor([r], k) == if r.key == k then r.delta else ZERO
    ensures LastFor([r], k) == if r.key == k then Some(r.totals) else None
  {
    assert [r][..0] == [];
  }

  function WriteBatches(rows: seq<Record>, batches: seq<seq<Record>>): seq<Record> {
    if batches == [] then rows
    else UpsertAll(WriteBatches(rows, batches[..|batches| - 1]), batches[|batches| - 1])
  }

  lemma {:induction false} UpsertAllConcat(rows: seq<Record>, xs: seq<Record>, ys: seq<Record>)
    ensures UpsertAll(rows, xs + ys) == UpsertAll(UpsertAll(rows, xs), ys)
  {
    if ys == [] {
      assert xs + ys == xs;
    } else {
      UpsertAllConcat(rows, xs, ys[..|ys| - 1]);
      var zs := xs + ys;
      assert zs[..|zs| - 1] == xs + ys[..|ys| - 1] && zs[|zs| - 1] == ys[|ys| - 1];
    }
  }

  /** Any partition of a record sequence into batches writes the same table as one-by-one upserts. */
  lemma {:induction false} PartitionDoesNotMatter(rows: seq<Record>, batches: seq<seq<Record>>)
    ensures WriteBatches(rows, batches) == UpsertAll(rows, Flat(batches))
  {
    if batches != [] {
      PartitionDoesNotMatter(rows, batches[..|batches| - 1]);
      UpsertAllConcat(rows, Flat(batches[..|batches| - 1]), batches[|batches| - 1]);
    }
  }

  // ------------------------------------------------------------ the cache key

  function CacheKey(k: Key): string {
    Decimal.Format(k.endpoint) + "_" + k.instance + "_" + Decimal.Format(k.hour)
  }

  lemma {:induction false} LastCut(a: string, c: char, b: string)
    requires c !in b
    ensures LastIndexOf(a + [c] + b, c) == |a|
  {
    var s := a + [c] + b;
    if b != "" {
      var n := |b| - 1;
      assert s[..|s| - 1] == a + [c] + b[..n] && s[|s| - 1] == b[n];
      assert b[n] in b;
      LastCut(a, c, b[..n]);
    }
  }

  /** The first and the last '_' delimit the instance id. */
  lemma CacheKeyParts(k: Key)
    ensures var h := CutAt(CacheKey(k), '_');
            && h.before == Decimal.Format(k.endpoint)
            && LastIndexOf(h.after, '_') == |k.instance|
            && h.after[..|k.instance|] == k.instance && h.after[|k.instance| + 1..] == Decimal.Format(k.hour)
  {
    var e, i, h := Decimal.Format(k.endpoint), k.instance, Decimal.Format(k.hour);
    assert '_' !in e && '_' !in h;
    hide Decimal.Format;
    var rest := i + ['_'] + h;
    assert CacheKey(k) == e + ['_'] + rest;
    hide CacheKey;
    CutOfConcat(e, '_', rest);
    LastCut(i, '_', h);
  }

  /** Different keys have different cache keys, although instance ids may contain '_'. */
  lemma CacheKeyInjective(j: Key, k: Key)
    requires CacheKey(j) == CacheKey(k)
    ensures j == k
  {
    hide Decimal.Format, CacheKey;
    CacheKeyParts(j);
    CacheKeyParts(k);
    Decimal.Injective(j.endpoint, k.endpoint);
    Decimal.Injective(j.hour, k.hour);
  }
}
