/** The archive manager's methods on the fields its locks protect; each is the shared half of one step. */
module ArchiveCode {
  import opened Archive

  lemma OnlyNone()
    ensures Only([], TrafficDelta) == [] && Only([], StatusChange) == []
  {
  }

  lemma {:induction false} OnlySnoc(rs: seq<Record>, r: Record)
    ensures forall kind :: Only(rs + [r], kind) == Only(rs, kind) + if r.kind == kind then [r] else []
  {
    assert (rs + [r])[..|rs|] == rs;
  }

  /** The grouping loop of `processBatch`; a record of another kind is in neither group. */
  method Group(batch: seq<Record>) returns (traffic: seq<Record>, status: seq<Record>)
    ensures traffic == Only(batch, TrafficDelta) && status == Only(batch, StatusChange)
  {
    hide Only;
    OnlyNone();
    traffic, status := [], [];
    for i := 0 to |batch|
      invariant traffic == Only(batch[..i], TrafficDelta) && status == Only(batch[..i], StatusChange)
    {
      OnlySnoc(batch[..i], batch[i]);
      assert batch[..i + 1] == batch[..i] + [batch[i]];
      match batch[i].kind {
        case TrafficDelta => traffic := traffic + [batch[i]];
        case StatusChange => status := status + [batch[i]];
        case Other =>
      }
    }
    assert batch[..|batch|] == batch;
  }

  class ArchiveManager {
    const config: Config
    var archiveQueue: seq<Record>
    var batchBuffer: seq<Record>
    var trafficRows: seq<Record>
    var statusRows: seq<Record>
    var totalArchived: nat
    var trafficRecords: nat
    var statusChanges: nat
    var batchesProcessed: nat
    var archiveErrors: nat
    var averageBatchSize: nat

    function Model(): Shared
      reads this
    {
      Shared(archiveQueue, batchBuffer, trafficRows, statusRows,
             Stats(totalArchived, trafficRecords, statusChanges, batchesProcessed, archiveErrors, averageBatchSize))
    }

    constructor (config: Config)
      ensures this.config == config && Model() == Start(0).shared
    {
      this.config := config;
      archiveQueue, batchBuffer, trafficRows, statusRows := [], [], [], [];
      totalArchived, trafficRecords, statusChanges := 0, 0, 0;
      batchesProcessed, archiveErrors, averageBatchSize := 0, 0, 0;
    }

    /** The non-blocking send of both producers: a full queue drops the record. */
    method Send(record: Record) returns (accepted: bool)
      modifies this`archiveQueue
      ensures Model() == Enqueue(old(Model()), record, config.capacity)
      ensures accepted <==> archiveQueue == old(archiveQueue) + [record]
    {
      accepted := |archiveQueue| < config.capacity;
      if accepted {
        archiveQueue := archiveQueue + [record];
      }
    }

    /** The shared half of `Append`, for every worker that holds the record. */
    method AddToBatch(record: Record)
      modifies this`batchBuffer
      ensures forall c: Config, s: State, i: nat :: s.shared == old(Model()) && At(s, Worker(i)) == Holding(record) ==>
                Step(c, s, Append(i)).shared == Model()
      ensures Model() == old(Model()).(buffer := old(batchBuffer) + [record])
    {
      batchBuffer := batchBuffer + [record];
    }

    /** The decision of `Check`, for every worker that has added a record. */
    method ShouldFlushBatch() returns (flush: bool)
      ensures forall s: State, i: nat :: s.shared == Model() && At(s, Worker(i)) == Added ==>
                At(Step(config, s, Check(i)), Worker(i)) == (if flush then Flushing(false) else Idle)
      ensures flush <==> |batchBuffer| >= config.batchSize
    {
      return |batchBuffer| >= config.batchSize;
    }

    /** The locked half of `flushBatch`: the shared half of `Take` and the batch its goroutine then writes. */
    method TakeBuffer() returns (batch: seq<Record>)
      modifies this`batchBuffer
      ensures forall c: Config, s: State, a: Actor, last: bool ::
              s.shared == old(Model()) && At(s, a) == Flushing(last) ==>
                var t := Step(c, s, Take(a));
                t.shared == Model() && At(t, a) == (if batch == [] then AfterFlush(last) else Writing(batch, last))
      ensures batch == old(batchBuffer) && Model() == old(Model()).(buffer := [])
    {
      batch := batchBuffer;
      batchBuffer := [];
    }

    /** Groups the batch by type, inserts both groups in one transaction and keeps the statistics. */
    method ProcessBatch(batch: seq<Record>, commits: bool)
      modifies this`trafficRows, this`statusRows, this`totalArchived, this`trafficRecords, this`statusChanges,
               this`batchesProcessed, this`archiveErrors, this`averageBatchSize
      ensures Model() == Process(old(Model()), batch, commits)
      ensures 2 * averageBatchSize <= old(averageBatchSize) + |batch| <= 2 * averageBatchSize + 1
    {
      hide Only;
      var traffic, status := Group(batch);
      batchesProcessed := batchesProcessed + 1;
      averageBatchSize := (averageBatchSize + |batch|) / 2;
      if commits {
        trafficRows, statusRows := trafficRows + traffic, statusRows + status;
        totalArchived, trafficRecords, statusChanges :=
          totalArchived + |batch|, trafficRecords + |traffic|, statusChanges + |status|;
      } else {
        archiveErrors := archiveErrors + 1;
      }
    }

    /**
     An undisturbed flush, last or not: the taking and the writing step of one goroutine, one after the
     other. A batch that was not empty joins the committed or the failed ones.
     */
    method FlushBatch(commits: bool)
      modifies this
      ensures forall c: Config, s: State, a: Actor, last: bool ::
              s.shared == old(Model()) && At(s, a) == Flushing(last) ==>
                var t := Step(c, Step(c, s, Take(a)), Write(a, commits));
                && t.shared == Model() && At(t, a) == AfterFlush(last)
                && t.committed == s.committed + (if commits && old(batchBuffer) != [] then [old(batchBuffer)] else [])
                && t.failed == s.failed + (if !commits && old(batchBuffer) != [] then [old(batchBuffer)] else [])
    {
      hide Process;
      ghost var before := Model();
      if |batchBuffer| == 0 {
        forall c: Config, s: State, a: Actor, last: bool | s.shared == before && At(s, a) == Flushing(last) {
          EmptyFlush(c, s, a, last, commits);
        }
        return;
      }
      var batch := TakeBuffer();
      ProcessBatch(batch, commits);
      forall c: Config, s: State, a: Actor, last: bool | s.shared == before && At(s, a) == Flushing(last) {
        FullFlush(c, s, a, last, commits);
      }
    }
  }

  lemma EmptyFlush(c: Config, s: State, a: Actor, last: bool, commits: bool)
    requires At(s, a) == Flushing(last) && s.shared.buffer == []
    ensures var t := Step(c, Step(c, s, Take(a)), Write(a, commits));
            t.shared == s.shared && At(t, a) == AfterFlush(last) && t.committed == s.committed && t.failed == s.failed
  {
    hide Process;
  }

  lemma FullFlush(c: Config, s: State, a: Actor, last: bool, commits: bool)
    requires At(s, a) == Flushing(last) && s.shared.buffer != []
    ensures var t, batch := Step(c, Step(c, s, Take(a)), Write(a, commits)), s.shared.buffer;
            && t.shared == Process(s.shared.(buffer := []), batch, commits) && At(t, a) == AfterFlush(last)
            && t.committed == (if commits then s.committed + [batch] else s.committed)
            && t.failed == (if commits then s.failed else s.failed + [batch])
  {
    hide Process;
    var taken := Step(c, s, Take(a));
    assert At(taken, a) == Writing(s.shared.buffer, last) && taken.shared == s.shared.(buffer := []);
  }
}
