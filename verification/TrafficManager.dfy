/** The history manager's methods on its own fields; each is one step, or a series of steps, of the pipeline. */
module TrafficManager {
  import opened TrafficHistory
  import opened TrafficPipeline

  const BUFFER_SIZE := 100

  class HistoryManager {
    var aggregateCache: map<string, Record>
    var writeChan: seq<Record>
    var buffer: seq<Record>
    /** The table `traffic_history`. */
    var rows: seq<Record>
    /** The records of batches that the database refused. */
    var lost: seq<Record>

    function Model(): State
      reads this
    {
      State(aggregateCache, writeChan, buffer, rows, lost)
    }

    constructor (table: seq<Record>)
      ensures Model() == State(map[], [], [], table, [])
    {
      aggregateCache, writeChan, buffer, rows, lost := map[], [], [], table, [];
    }

    method AddTrafficPoint(endpoint: int, instance: string, now: int, totals: Totals, delta: Delta)
      modifies this`aggregateCache
      ensures Model() == Step(old(Model()), Add(endpoint, instance, now, totals, delta))
      ensures old(OwnKeys(aggregateCache)) ==>
              OwnKeys(aggregateCache) &&
              Merged(old(aggregateCache), aggregateCache,
                     Record(Key(endpoint, instance, now - now % SECONDS_PER_HOUR), delta.(samples := 1), totals))
    {
      hide OwnKeys, Merged;
      ghost var point := PointOf(Add(endpoint, instance, now, totals, delta));
      if OwnKeys(aggregateCache) {
        AddMerges(aggregateCache, point);
      }
      var hour := now - now % SECONDS_PER_HOUR;
      var key := Key(endpoint, instance, hour);
      var cacheKey := CacheKey(key);
      if cacheKey in aggregateCache {
        var existing := aggregateCache[cacheKey];
        existing := existing.(delta := Delta(existing.delta.tcpRx + delta.tcpRx, existing.delta.tcpTx + delta.tcpTx,
                                             existing.delta.udpRx + delta.udpRx, existing.delta.udpTx + delta.udpTx,
                                             existing.delta.samples + 1));
        existing := existing.(totals := totals);
        aggregateCache := aggregateCache[cacheKey := existing];
      } else {
        aggregateCache := aggregateCache[cacheKey := Record(key, delta.(samples := 1), totals)];
      }
    }

    /** Visits every cached record once, in an order the caller cannot choose; `order` is that order. */
    method FlushAggregateCache() returns (order: seq<string>)
      modifies this`aggregateCache, this`writeChan
      ensures Model() == Exec(old(Model()), Moves(order))
      ensures forall ck :: ck in order <==> ck in old(aggregateCache)
      ensures forall i, j :: 0 <= i < j < |order| ==> order[i] != order[j]
      ensures MovedFirst(old(Model()), Model(), order, Room(|old(writeChan)|, |order|))
    {
      hide MovedFirst;
      order := [];
      var pending := aggregateCache.Keys;
      ghost var moves: seq<Event> := [];
      while pending != {}
        invariant moves == Moves(order)
        invariant Model() == Exec(old(Model()), moves)
        invariant forall ck :: ck in order <==> ck in old(aggregateCache) && ck !in pending
        invariant forall i, j :: 0 <= i < j < |order| ==> order[i] != order[j]
        invariant pending <= aggregateCache.Keys && pending <= old(aggregateCache.Keys)
        decreases pending
      {
        var key :| key in pending;
        pending := pending - {key};
        order := order + [key];
        ghost var before := moves;
        moves := moves + [Move(key)];
        assert moves[..|moves| - 1] == before;
        if |writeChan| < CHANNEL_CAPACITY {
          writeChan := writeChan + [aggregateCache[key]];
          aggregateCache := aggregateCache - {key};
        }
      }
      MovesMean(old(Model()), order, |order|);
      assert order[..|order|] == order;
    }

    /** The channel case of `writeProcessor`. */
    method ReceiveRecord() returns (shouldFlush: bool)
      modifies this`writeChan, this`buffer
      ensures Model() == Step(old(Model()), Receive)
      ensures old(writeChan) == [] ==> writeChan == [] && buffer == old(buffer)
      ensures old(writeChan) != [] ==> old(writeChan) == [buffer[|buffer| - 1]] + writeChan &&
                                       buffer[..|buffer| - 1] == old(buffer)
      ensures old(writeChan) != [] ==> (shouldFlush <==> |buffer| >= BUFFER_SIZE)
    {
      shouldFlush := false;
      if writeChan != [] {
        buffer := buffer + [writeChan[0]];
        writeChan := writeChan[1..];
        shouldFlush := |buffer| >= BUFFER_SIZE;
      }
    }

    /** `batchWrite`: the transaction works on a copy of the table and either replaces it or fails. */
    method BatchWrite(records: seq<Record>, commits: bool)
      modifies this`rows
      ensures rows == if commits then UpsertAll(old(rows), records) else old(rows)
    {
      var tx := rows;
      for i := 0 to |records|
        invariant rows == old(rows) && tx == UpsertAll(old(rows), records[..i])
      {
        var record := records[i];
        var found := FindRow(tx, record.key);
        assert records[..i + 1][..i] == records[..i];
        if found == -1 {
          tx := tx + [record];
        } else {
          var existing := tx[found];
          tx := tx[found := Record(record.key, Plus(existing.delta, record.delta), record.totals)];
        }
      }
      assert records[..|records|] == records;
      if commits {
        rows := tx;
      }
    }

    method FlushBuffer(commits: bool)
      modifies this`buffer, this`rows, this`lost
      ensures Model() == Step(old(Model()), Flush(commits))
      ensures buffer == []
      ensures commits ==> lost == old(lost) && (old(UniqueKeys(rows)) ==> Gained(old(rows), old(buffer), rows))
      ensures !commits ==> rows == old(rows) && lost == old(lost) + old(buffer)
    {
      hide UpsertAll, UniqueKeys, Gained;
      if UniqueKeys(rows) {
        UpsertGains(rows, buffer);
      }
      if |buffer| == 0 {
        return;
      }
      var toWrite := buffer;
      buffer := [];
      BatchWrite(toWrite, commits);
      if !commits {
        lost := lost + toWrite;
      }
    }
  }
}
