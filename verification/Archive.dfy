/**
 The archive manager: producers offer records to a bounded queue, workers move them into one shared
 batch buffer, and whoever flushes takes the whole buffer and writes it in a transaction. Every
 locked section and every channel operation is one step; the steps interleave in any order.
 */
module Archive {
  import opened Sequences

  /** `Other` stands for every archive type that `processBatch` has no case for. */
  datatype Kind = TrafficDelta | StatusChange | Other

  datatype Record = Record(kind: Kind, endpoint: int, tunnel: string, timestamp: int)

  datatype Stats = Stats(total: nat, traffic: nat, status: nat, batches: nat, errors: nat, average: nat)

  /** What the locks protect: the queue, the batch buffer, the two tables and the statistics. */
  datatype Shared = Shared(queue: seq<Record>, buffer: seq<Record>,
                           trafficRows: seq<Record>, statusRows: seq<Record>, stats: Stats)

  /** Where a goroutine stands. `last` marks the flush after which it ends. */
  datatype Thread =
    | Idle
    | Holding(record: Record)
    | Added
    | Flushing(last: bool)
    | Writing(batch: seq<Record>, last: bool)
    | Stopped

  datatype Config = Config(batchSize: int, capacity: nat)

  datatype State = State(shared: Shared, workers: seq<Thread>, timer: Thread, closer: Thread, cancelled: bool,
                         committed: seq<seq<Record>>, failed: seq<seq<Record>>)

  datatype Actor = Worker(index: nat) | Timer | Closer

  datatype Event =
    | Offer(record: Record)
    | Receive(worker: nat)
    | Append(worker: nat)
    | Check(worker: nat)
    | Stop(worker: nat)
    | Tick
    | LastTick
    | Cancel
    | LastFlush
    | Take(actor: Actor)
    | Write(actor: Actor, commits: bool)

  const DEFAULT_WORKERS := 2

  function WorkerCount(configured: int): nat {
    if configured == 0 then DEFAULT_WORKERS else if configured < 0 then 0 else configured
  }

  function Start(workerCount: int): State {
    State(Shared([], [], [], [], Stats(0, 0, 0, 0, 0, 0)), seq(WorkerCount(workerCount), _ => Idle), Idle, Idle, false,
          [], [])
  }

  // ------------------------------------------------------------------- steps

  function Only(records: seq<Record>, kind: Kind): seq<Record> {
    if records == [] then []
    else
      var front, last := Only(records[..|records| - 1], kind), records[|records| - 1];
      if last.kind == kind then front + [last] else front
  }

  function Enqueue(sh: Shared, r: Record, capacity: nat): Shared {
    if |sh.queue| < capacity then sh.(queue := sh.queue + [r]) else sh
  }

  /** `processBatch` and the statistics that `flushBatch` keeps. */
  function Process(sh: Shared, batch: seq<Record>, commits: bool): Shared {
    var flushed := sh.stats.(batches := sh.stats.batches + 1, average := (sh.stats.average + |batch|) / 2);
    if commits then
      sh.(trafficRows := sh.trafficRows + Only(batch, TrafficDelta),
          statusRows := sh.statusRows + Only(batch, StatusChange),
          stats := flushed.(total := flushed.total + |batch|,
                            traffic := flushed.traffic + |Only(batch, TrafficDelta)|,
                            status := flushed.status + |Only(batch, StatusChange)|))
    else sh.(stats := flushed.(errors := flushed.errors + 1))
  }

  function At(s: State, a: Actor): Thread {
    match a
    case Worker(i) => if i < |s.workers| then s.workers[i] else Stopped
    case Timer => s.timer
    case Closer => s.closer
  }

  function Put(s: State, a: Actor, t: Thread): State {
    match a
    case Worker(i) => if i < |s.workers| then s.(workers := s.workers[i := t]) else s
    case Timer => s.(timer := t)
    case Closer => s.(closer := t)
  }

  function AfterFlush(last: bool): Thread {
    if last then Stopped else Idle
  }

  predicate AllStopped(ws: seq<Thread>) {
    forall i :: 0 <= i < |ws| ==> ws[i] == Stopped
  }

  /** The locked half of `flushBatch`. */
  function TakeBatch(s: State, a: Actor, last: bool): State {
    if s.shared.buffer == [] then Put(s, a, AfterFlush(last))
    else Put(s.(shared := s.shared.(buffer := [])), a, Writing(s.shared.buffer, last))
  }

  function WriteBatch(s: State, a: Actor, batch: seq<Record>, last: bool, commits: bool): State {
    var t := Put(s.(shared := Process(s.shared, batch, commits)), a, AfterFlush(last));
    if commits then t.(committed := s.committed + [batch]) else t.(failed := s.failed + [batch])
  }

  function Step(c: Config, s: State, e: Event): State {
    match e
    case Offer(r) => s.(shared := Enqueue(s.shared, r, c.capacity))
    case Receive(i) =>
      if At(s, Worker(i)).Idle? && s.shared.queue != [] then
        Put(s.(shared := s.shared.(queue := s.shared.queue[1..])), Worker(i), Holding(s.shared.queue[0]))
      else s
    case Append(i) =>
      if At(s, Worker(i)).Holding? then
        Put(s.(shared := s.shared.(buffer := s.shared.buffer + [At(s, Worker(i)).record])), Worker(i), Added)
      else s
    case Check(i) =>
      if !At(s, Worker(i)).Added? then s
      else if |s.shared.buffer| >= c.batchSize then Put(s, Worker(i), Flushing(false))
      else Put(s, Worker(i), Idle)
    case Stop(i) => if At(s, Worker(i)).Idle? && s.cancelled then Put(s, Worker(i), Stopped) else s
    case Tick => if s.timer.Idle? then s.(timer := Flushing(false)) else s
    case LastTick => if s.timer.Idle? && s.cancelled then s.(timer := Flushing(true)) else s
    case Cancel => s.(cancelled := true)
    case LastFlush =>
      if s.cancelled && AllStopped(s.workers) && s.timer == Stopped && s.closer.Idle? then s.(closer := Flushing(true))
        else s
    case Take(a) => if At(s, a).Flushing? then TakeBatch(s, a, At(s, a).last) else s
    case Write(a, commits) => if At(s, a).Writing? then WriteBatch(s, a, At(s, a).batch, At(s, a).last, commits) else s
  }

  function Exec(c: Config, s: State, es: seq<Event>): State {
    if es == [] then s else Step(c, Exec(c, s, es[..|es| - 1]), es[|es| - 1])
  }

  // ------------------------------------------------- the buffer stays bounded

  /** Workers that have added a record but not yet decided on, or carried out, a flush. */
  function Pending(ws: seq<Thread>): nat {
    if ws == [] then 0
    else Pending(ws[..|ws| - 1]) + PendingOne(ws[|ws| - 1])
  }

  function PendingOne(t: Thread): nat {
    if t.Added? || t.Flushing? then 1 else 0
  }

  lemma {:induction false} PendingUpdate(ws: seq<Thread>, i: nat, t: Thread)
    requires i < |ws|
    ensures Pending(ws[i := t]) + PendingOne(ws[i]) == Pending(ws) + PendingOne(t)
  {
    var vs, n := ws[i := t], |ws| - 1;
    if i == n {
      assert vs[..n] == ws[..n];
    } else {
      PendingUpdate(ws[..n], i, t);
      assert vs[..n] == ws[..n][i := t];
    }
  }

  lemma {:induction false} PendingAtMost(ws: seq<Thread>)
    ensures Pending(ws) <= |ws|
  {
    if ws != [] {
      PendingAtMost(ws[..|ws| - 1]);
    }
  }

  /** The length at which a lone worker would leave the buffer alone. */
  function Slack(c: Config): nat {
    if c.batchSize < 1 then 0 else c.batchSize - 1
  }

  predicate BatchOk(c: Config, s: State, batch: seq<Record>) {
    0 < |batch| <= Slack(c) + |s.workers|
  }

  ghost predicate Bounded(c: Config, s: State) {
    && |s.shared.buffer| <= Slack(c) + Pending(s.workers)
    && (forall a :: At(s, a).Writing? ==> BatchOk(c, s, At(s, a).batch))
    && (forall b :: b in s.committed || b in s.failed ==> BatchOk(c, s, b))
    && s.shared.stats.average <= Slack(c) + |s.workers|
  }

  lemma AtPut(s: State, a: Actor, t: Thread, b: Actor)
    ensures At(Put(s, a, t), b) == if a == b && (a.Worker? ==> a.index < |s.workers|) then t else At(s, b)
    ensures |Put(s, a, t).workers| == |s.workers|
    ensures Put(s, a, t).shared == s.shared && Put(s, a, t).committed == s.committed && Put(s, a, t).failed == s.failed
  {
  }

  lemma PendingPut(s: State, a: Actor, t: Thread)
    requires a.Worker? ==> a.index < |s.workers|
    ensures a.Worker? ==> Pending(Put(s, a, t).workers) + PendingOne(At(s, a)) == Pending(s.workers) + PendingOne(t)
    ensures !a.Worker? ==> Put(s, a, t).workers == s.workers
  {
    if a.Worker? {
      PendingUpdate(s.workers, a.index, t);
    }
  }

  /** Replacing one thread, with a buffer no longer than the pending workers allow. */
  lemma PutBounded(c: Config, s: State, sh: Shared, a: Actor, t: Thread)
    requires Bounded(c, s) && (a.Worker? ==> a.index < |s.workers|)
    requires |sh.buffer| <= Slack(c) + Pending(Put(s, a, t).workers)
    requires t.Writing? ==> BatchOk(c, s, t.batch)
    requires sh.stats.average <= Slack(c) + |s.workers|
    ensures Bounded(c, Put(s.(shared := sh), a, t))
  {
    hide Pending, At, Put;
    var u := Put(s.(shared := sh), a, t);
    assert u.workers == Put(s, a, t).workers by {
      AssertSameWorkers(s, sh, a, t);
    }
    forall b ensures At(u, b).Writing? ==> BatchOk(c, u, At(u, b).batch) {
      AtPut(s.(shared := sh), a, t, b);
      AtSame(s, sh, b);
    }
    AtPut(s.(shared := sh), a, t, a);
  }

  lemma AtSame(s: State, sh: Shared, b: Actor)
    ensures At(s.(shared := sh), b) == At(s, b)
  {
  }

  lemma AssertSameWorkers(s: State, sh: Shared, a: Actor, t: Thread)
    ensures Put(s.(shared := sh), a, t).workers == Put(s, a, t).workers
  {
  }

  lemma TakeBounded(c: Config, s: State, a: Actor)
    requires Bounded(c, s) && At(s, a).Flushing?
    ensures Bounded(c, Step(c, s, Take(a)))
  {
    hide Pending;
    PendingAtMost(s.workers);
    var sh := s.shared;
    if sh.buffer == [] {
      PutBounded(c, s, sh, a, AfterFlush(At(s, a).last));
      assert s.(shared := sh) == s;
    } else {
      PutBounded(c, s, sh.(buffer := []), a, Writing(sh.buffer, At(s, a).last));
    }
  }

  lemma WriteBounded(c: Config, s: State, a: Actor, commits: bool)
    requires Bounded(c, s) && At(s, a).Writing?
    ensures Bounded(c, Step(c, s, Write(a, commits)))
  {
    hide Pending, Only;
    var batch, last := At(s, a).batch, At(s, a).last;
    assert BatchOk(c, s, batch);
    PendingPut(s, a, AfterFlush(last));
    PutBounded(c, s, Process(s.shared, batch, commits), a, AfterFlush(last));
    hide Bounded;
    CommitBounded(c, s, Put(s.(shared := Process(s.shared, batch, commits)), a, AfterFlush(last)), batch, commits);
  }

  lemma CommitBounded(c: Config, s: State, t: State, batch: seq<Record>, commits: bool)
    requires Bounded(c, t) && BatchOk(c, t, batch) && t.committed == s.committed && t.failed == s.failed
    ensures Bounded(c, if commits then t.(committed := s.committed + [batch]) else t.(failed := s.failed + [batch]))
  {
    hide Pending;
    var u := if commits then t.(committed := s.committed + [batch]) else t.(failed := s.failed + [batch]);
    forall a ensures At(u, a) == At(t, a) {
    }
  }

  lemma StepBounded(c: Config, s: State, e: Event)
    requires Bounded(c, s)
    ensures Bounded(c, Step(c, s, e))
  {
    hide Pending, Only, Bounded;
    assert s.(shared := s.shared) == s;
    match e
    case Offer(r) => QueueBounded(c, s, Enqueue(s.shared, r, c.capacity).queue);
    case Receive(i) =>
      if At(s, Worker(i)).Idle? && s.shared.queue != [] {
        MoveBounded(c, s, s.shared.(queue := s.shared.queue[1..]), i, Holding(s.shared.queue[0]));
      }
    case Append(i) =>
      if At(s, Worker(i)).Holding? {
        MoveBounded(c, s, s.shared.(buffer := s.shared.buffer + [At(s, Worker(i)).record]), i, Added);
      }
    case Check(i) =>
      if At(s, Worker(i)).Added? {
        MoveBounded(c, s, s.shared, i, if |s.shared.buffer| >= c.batchSize then Flushing(false) else Idle);
      }
    case Stop(i) =>
      if At(s, Worker(i)).Idle? && s.cancelled {
        MoveBounded(c, s, s.shared, i, Stopped);
      }
    case Tick => TimerBounded(c, s, Flushing(false));
    case LastTick => TimerBounded(c, s, Flushing(true));
    case Cancel => CancelBounded(c, s);
    case LastFlush => CloserBounded(c, s, Flushing(true));
    case Take(a) =>
      if At(s, a).Flushing? {
        TakeBounded(c, s, a);
      }
    case Write(a, commits) =>
      if At(s, a).Writing? {
        WriteBounded(c, s, a, commits);
      }
  }

  lemma QueueBounded(c: Config, s: State, queue: seq<Record>)
    requires Bounded(c, s)
    ensures Bounded(c, s.(shared := s.shared.(queue := queue)))
  {
    hide Pending;
    forall b ensures At(s.(shared := s.shared.(queue := queue)), b) == At(s, b) {
    }
  }

  lemma CancelBounded(c: Config, s: State)
    requires Bounded(c, s)
    ensures Bounded(c, s.(cancelled := true))
  {
    hide Pending;
    forall b ensures At(s.(cancelled := true), b) == At(s, b) {
    }
  }

  lemma TimerBounded(c: Config, s: State, t: Thread)
    requires Bounded(c, s) && !t.Writing?
    ensures Bounded(c, s.(timer := t))
  {
    hide Pending;
    PutBounded(c, s, s.shared, Timer, t);
    assert s.(shared := s.shared) == s;
  }

  lemma CloserBounded(c: Config, s: State, t: Thread)
    requires Bounded(c, s) && !t.Writing?
    ensures Bounded(c, s.(closer := t))
  {
    hide Pending;
    PutBounded(c, s, s.shared, Closer, t);
    assert s.(shared := s.shared) == s;
  }

  /** A worker's move keeps the bound when it adds one record at most and stays pending unless the buffer is short. */
  lemma MoveBounded(c: Config, s: State, sh: Shared, i: nat, t: Thread)
    requires Bounded(c, s) && i < |s.workers| && !t.Writing? && sh.stats == s.shared.stats
    requires |sh.buffer| + PendingOne(s.workers[i]) <= |s.shared.buffer| + PendingOne(t) || |sh.buffer| <= Slack(c)
    ensures Bounded(c, Put(s.(shared := sh), Worker(i), t))
  {
    hide Pending;
    PendingPut(s, Worker(i), t);
    PutBounded(c, s, sh, Worker(i), t);
  }

  /**
   In every interleaving, the shared buffer holds at most one record less than a batch plus one for
   each pending worker, hence at most BatchSize - 1 + W, and so does every batch ever flushed.
   */
  lemma {:induction false} RunBounded(c: Config, s: State, es: seq<Event>)
    requires Bounded(c, s)
    ensures Bounded(c, Exec(c, s, es))
    ensures |Exec(c, s, es).shared.buffer| <= Slack(c) + |Exec(c, s, es).workers|
    ensures |Exec(c, s, es).workers| == |s.workers|
  {
    if es != [] {
      hide Step, Bounded;
      var t := Exec(c, s, es[..|es| - 1]);
      RunBounded(c, s, es[..|es| - 1]);
      StepBounded(c, t, es[|es| - 1]);
      StepWorkers(c, t, es[|es| - 1]);
    }
    BufferBounded(c, Exec(c, s, es));
  }

  lemma BufferBounded(c: Config, s: State)
    requires Bounded(c, s)
    ensures |s.shared.buffer| <= Slack(c) + |s.workers|
  {
    PendingAtMost(s.workers);
  }

  lemma StepWorkers(c: Config, s: State, e: Event)
    ensures |Step(c, s, e).workers| == |s.workers|
  {
  }

  /**
   From the start, with as many workers as are configured, two by default: the buffer and every batch
   are at most BatchSize - 1 + W long.
   */
  lemma {:induction false} StartBounded(c: Config, workerCount: int, es: seq<Event>)
    ensures var s := Exec(c, Start(workerCount), es);
            var w := |s.workers|;
            && (workerCount == 0 ==> w == 2) && (workerCount > 0 ==> w == workerCount) && (workerCount < 0 ==> w == 0)
            && (c.batchSize >= 1 ==> |s.shared.buffer| <= c.batchSize - 1 + w)
            && (c.batchSize < 1 ==> |s.shared.buffer| <= w)
            && (forall b :: b in s.committed || b in s.failed ==>
                0 < |b| <= w + if c.batchSize >= 1 then c.batchSize - 1 else 0)
  {
    var start := Start(workerCount);
    assert Bounded(c, start);
    hide Exec, Start, Pending;
    RunBounded(c, start, es);
    assert |start.workers| == WorkerCount(workerCount) by {
      StartWorkers(workerCount);
    }
    hide At;
  }

  lemma StartWorkers(workerCount: int)
    ensures |Start(workerCount).workers| == WorkerCount(workerCount)
  {
  }

  /** Nothing is cancelled before the first cancellation, and everything is from then on. */
  lemma {:induction false} CancelledExactly(c: Config, workerCount: int, es: seq<Event>)
    ensures Exec(c, Start(workerCount), es).cancelled <==> Cancel in es
  {
    if es != [] {
      var front, last := es[..|es| - 1], es[|es| - 1];
      assert es == front + [last];
      CancelledExactly(c, workerCount, front);
      StepCancels(c, Exec(c, Start(workerCount), front), last);
      hide Step;
    }
  }

  lemma StepCancels(c: Config, s: State, e: Event)
    ensures Step(c, s, e).cancelled <==> s.cancelled || e == Cancel
  {
    hide Process, AllStopped, At;
  }

  /**
   The running average moves half the way to the length of each batch written, rounded down, and stands
   still otherwise.
   */
  lemma AverageHalves(c: Config, s: State, e: Event)
    ensures var before, after := s.shared.stats.average, Step(c, s, e).shared.stats.average;
            if e.Write? && At(s, e.actor).Writing? then
              2 * after <= before + |At(s, e.actor).batch| <= 2 * after + 1
            else after == before
  {
    hide Only, AllStopped;
  }

  /**
   An undisturbed tick of an idle timer empties the buffer, whatever its length, into one committed or
   failed batch, and the timer is idle again.
   */
  lemma TickFlushes(c: Config, s: State, commits: bool)
    requires s.timer.Idle?
    ensures var t := Step(c, Step(c, Step(c, s, Tick), Take(Timer)), Write(Timer, commits));
            && t.timer.Idle? && t.shared.buffer == [] && t.shared.queue == s.shared.queue && t.workers == s.workers
            && t.committed == s.committed + (if commits && s.shared.buffer != [] then [s.shared.buffer] else [])
            && t.failed == s.failed + (if !commits && s.shared.buffer != [] then [s.shared.buffer] else [])
  {
    hide Only, AllStopped;
    var u := Step(c, Step(c, s, Tick), Take(Timer));
    assert u.timer == if s.shared.buffer == [] then Idle else Writing(s.shared.buffer, false);
  }

  // ------------------------------------------------------- the bound is exact

  lemma {:induction false} ExecSnoc(c: Config, s: State, es: seq<Event>, e: Event)
    ensures Exec(c, s, es + [e]) == Step(c, Exec(c, s, es), e)
  {
    assert (es + [e])[..|es|] == es;
  }

  /** Worker zero moves n records into the buffer, one after the other. */
  function Filling(r: Record, n: nat): seq<Event> {
    if n == 0 then [] else Filling(r, n - 1) + [Offer(r)] + [Receive(0)] + [Append(0)] + [Check(0)]
  }

  /** The first n workers each add one more record, and none has checked yet. */
  function Piling(r: Record, n: nat): seq<Event> {
    if n == 0 then [] else Piling(r, n - 1) + [Offer(r)] + [Receive(n - 1)] + [Append(n - 1)]
  }

  predicate Quiet(s: State, length: nat, pending: nat) {
    && s.shared.queue == [] && |s.shared.buffer| == length
    && forall i :: pending <= i < |s.workers| ==> s.workers[i] == Idle
  }

  lemma {:induction false} FillingFills(c: Config, s: State, r: Record, n: nat)
    requires Quiet(s, 0, 0) && s.workers != [] && c.capacity > 0 && n < c.batchSize
    ensures Quiet(Exec(c, s, Filling(r, n)), n, 0) && |Exec(c, s, Filling(r, n)).workers| == |s.workers|
  {
    if n > 0 {
      var es := Filling(r, n - 1);
      assert Filling(r, n) == es + [Offer(r)] + [Receive(0)] + [Append(0)] + [Check(0)];
      hide Step, Exec, Quiet, Filling;
      FillingFills(c, s, r, n - 1);
      ExecMore(c, s, es, Offer(r), Receive(0), Append(0));
      ExecSnoc(c, s, es + [Offer(r)] + [Receive(0)] + [Append(0)], Check(0));
      FillOne(c, Exec(c, s, es), r, n - 1);
    }
  }

  lemma {:induction false} ExecMore(c: Config, s: State, es: seq<Event>, a: Event, b: Event, d: Event)
    ensures Exec(c, s, es + [a] + [b] + [d]) == Step(c, Step(c, Step(c, Exec(c, s, es), a), b), d)
  {
    hide Exec, Step;
    ExecSnoc(c, s, es, a);
    ExecSnoc(c, s, es + [a], b);
    ExecSnoc(c, s, es + [a] + [b], d);
  }

  lemma FillOne(c: Config, s: State, r: Record, n: nat)
    requires Quiet(s, n, 0) && s.workers != [] && c.capacity > 0 && n + 1 < c.batchSize
    ensures var t := Step(c, Step(c, Step(c, Step(c, s, Offer(r)), Receive(0)), Append(0)), Check(0));
            Quiet(t, n + 1, 0) && |t.workers| == |s.workers|
  {
    PileOne(c, s, r, n, 0);
  }

  lemma PileOne(c: Config, s: State, r: Record, n: nat, i: nat)
    requires Quiet(s, n, i) && i < |s.workers| && c.capacity > 0
    ensures var t := Step(c, Step(c, Step(c, s, Offer(r)), Receive(i)), Append(i));
            Quiet(t, n + 1, i + 1) && |t.workers| == |s.workers| && t.workers[i] == Added
  {
    var s1 := Step(c, s, Offer(r));
    assert s1.shared.queue == [r];
    var s2 := Step(c, s1, Receive(i));
    assert s2.shared.queue == [] && s2.workers == s.workers[i := Holding(r)];
    var s3 := Step(c, s2, Append(i));
    assert s3.workers == s2.workers[i := Added] && s3.shared.buffer == s.shared.buffer + [r];
  }

  lemma {:induction false} PilingUnfolds(c: Config, s: State, r: Record, n: nat)
    ensures n == 0 ==> Exec(c, s, Piling(r, n)) == s
    ensures n > 0 ==> Piling(r, n) == Piling(r, n - 1) + [Offer(r)] + [Receive(n - 1)] + [Append(n - 1)]
  {
  }

  lemma {:induction false} PilingPiles(c: Config, s: State, r: Record, m: nat, n: nat)
    requires Quiet(s, m, 0) && c.capacity > 0 && n <= |s.workers|
    ensures Quiet(Exec(c, s, Piling(r, n)), m + n, n) && |Exec(c, s, Piling(r, n)).workers| == |s.workers|
  {
    hide Step, Exec, Quiet, Piling;
    PilingUnfolds(c, s, r, n);
    if n > 0 {
      var es := Piling(r, n - 1);
      PilingPiles(c, s, r, m, n - 1);
      ExecMore(c, s, es, Offer(r), Receive(n - 1), Append(n - 1));
      var t := Exec(c, s, es);
      PileOne(c, t, r, m + n - 1, n - 1);
      var u := Step(c, Step(c, Step(c, t, Offer(r)), Receive(n - 1)), Append(n - 1));
      assert Quiet(u, m + n, n) && |u.workers| == |s.workers|;
      assert Exec(c, s, Piling(r, n)) == u;
    }
  }

  lemma {:induction false} ExecConcat(c: Config, s: State, es: seq<Event>, fs: seq<Event>)
    ensures Exec(c, s, es + fs) == Exec(c, Exec(c, s, es), fs)
  {
    if fs == [] {
      assert es + fs == es;
    } else {
      hide Step;
      var zs := es + fs;
      assert zs[..|zs| - 1] == es + fs[..|fs| - 1] && zs[|zs| - 1] == fs[|fs| - 1];
      ExecConcat(c, s, es, fs[..|fs| - 1]);
    }
  }

  /** For every batch size and number of workers, some interleaving does reach BatchSize - 1 + W. */
  lemma BoundIsReached(c: Config, workerCount: int, r: Record) returns (es: seq<Event>)
    requires c.batchSize >= 1 && c.capacity > 0 && WorkerCount(workerCount) > 0
    ensures |Exec(c, Start(workerCount), es).shared.buffer| == c.batchSize - 1 + WorkerCount(workerCount)
  {
    var s, n, w := Start(workerCount), c.batchSize - 1, WorkerCount(workerCount);
    es := Filling(r, n) + Piling(r, w);
    FillingFills(c, s, r, n);
    PilingPiles(c, Exec(c, s, Filling(r, n)), r, n, w);
    ExecConcat(c, s, Filling(r, n), Piling(r, w));
    hide Exec;
  }

  // ------------------------------------------------------ no record is lost

  function Copies(records: seq<Record>, r: Record): nat {
    if records == [] then 0
    else Copies(records[..|records| - 1], r) + (if records[|records| - 1] == r then 1 else 0)
  }

  lemma {:induction false} CopiesConcat(xs: seq<Record>, ys: seq<Record>, r: Record)
    ensures Copies(xs + ys, r) == Copies(xs, r) + Copies(ys, r)
  {
    if ys == [] {
      assert xs + ys == xs;
    } else {
      var zs := xs + ys;
      assert zs[..|zs| - 1] == xs + ys[..|ys| - 1] && zs[|zs| - 1] == ys[|ys| - 1];
      CopiesConcat(xs, ys[..|ys| - 1], r);
    }
  }

  lemma {:induction false} CopiesSnoc(xs: seq<Record>, x: Record, r: Record)
    ensures Copies(xs + [x], r) == Copies(xs, r) + (if x == r then 1 else 0)
  {
    assert (xs + [x])[..|xs|] == xs;
  }

  lemma {:induction false} CopiesHead(xs: seq<Record>, r: Record)
    requires xs != []
    ensures Copies(xs, r) == (if xs[0] == r then 1 else 0) + Copies(xs[1..], r)
  {
    hide Copies;
    assert xs == [xs[0]] + xs[1..];
    CopiesConcat([xs[0]], xs[1..], r);
    assert [] + [xs[0]] == [xs[0]];
    CopiesSnoc([], xs[0], r);
    CopiesOfNone(r);
  }

  lemma {:induction false} CopiesOfNone(r: Record)
    ensures Copies([], r) == 0
  {
  }

  lemma {:induction false} CopiesMember(xs: seq<Record>, r: Record)
    ensures r in xs <==> Copies(xs, r) > 0
  {
    if xs != [] {
      CopiesMember(xs[..|xs| - 1], r);
      assert xs == xs[..|xs| - 1] + [xs[|xs| - 1]];
    }
  }

  function Load(t: Thread, r: Record): nat {
    match t
    case Holding(x) => if x == r then 1 else 0
    case Writing(batch, _) => Copies(batch, r)
    case _ => 0
  }

  function Carried(ws: seq<Thread>, r: Record): nat {
    if ws == [] then 0 else Carried(ws[..|ws| - 1], r) + Load(ws[|ws| - 1], r)
  }

  lemma {:induction false} CarriedUpdate(ws: seq<Thread>, i: nat, t: Thread, r: Record)
    requires i < |ws|
    ensures Carried(ws[i := t], r) + Load(ws[i], r) == Carried(ws, r) + Load(t, r)
  {
    hide Load;
    var vs, n := ws[i := t], |ws| - 1;
    if i == n {
      assert vs[..n] == ws[..n];
    } else {
      CarriedUpdate(ws[..n], i, t, r);
      assert vs[..n] == ws[..n][i := t];
    }
  }

  /** Copies taken from the queue and not yet written, wherever a goroutine holds them. */
  function Carrying(s: State, r: Record): nat {
    Carried(s.workers, r) + Load(s.timer, r) + Load(s.closer, r)
  }

  /** Copies of a record anywhere in the manager, in its tables' committed batches or in failed batches. */
  function Held(s: State, r: Record): nat {
    Copies(s.shared.queue, r) + Copies(s.shared.buffer, r) + Carrying(s, r)
    + Copies(Flat(s.committed), r) + Copies(Flat(s.failed), r)
  }

  function AcceptedBy(c: Config, s: State, e: Event): seq<Record> {
    if e.Offer? && |s.shared.queue| < c.capacity then [e.record] else []
  }

  function Accepted(c: Config, s: State, es: seq<Event>): seq<Record> {
    if es == [] then []
    else Accepted(c, s, es[..|es| - 1]) + AcceptedBy(c, Exec(c, s, es[..|es| - 1]), es[|es| - 1])
  }

  lemma CarryingPut(s: State, a: Actor, t: Thread, r: Record)
    requires a.Worker? ==> a.index < |s.workers|
    ensures Carrying(Put(s, a, t), r) + Load(At(s, a), r) == Carrying(s, r) + Load(t, r)
  {
    hide Load, Carried;
    if a.Worker? {
      CarriedUpdate(s.workers, a.index, t, r);
    }
  }

  /** One thread moves, and the shared part changes with it. */
  lemma {:induction false} MoveHolds(s: State, sh: Shared, a: Actor, t: Thread, r: Record)
    requires a.Worker? ==> a.index < |s.workers|
    ensures var u := Put(s.(shared := sh), a, t);
            Held(u, r) + Copies(s.shared.queue, r) + Copies(s.shared.buffer, r) + Load(At(s, a), r)
            == Held(s, r) + Copies(sh.queue, r) + Copies(sh.buffer, r) + Load(t, r)
  {
    hide Carried, Flat, Load, Copies;
    CarryingPut(s.(shared := sh), a, t, r);
    AtSame(s, sh, a);
    hide At;
  }

  lemma TakeHolds(s: State, a: Actor, r: Record)
    requires At(s, a).Flushing?
    ensures Held(TakeBatch(s, a, At(s, a).last), r) == Held(s, r)
  {
    hide Held, Copies;
    var last := At(s, a).last;
    assert s.(shared := s.shared) == s;
    CopiesOfNone(r);
    MoveHolds(s, s.shared, a, AfterFlush(last), r);
    MoveHolds(s, s.shared.(buffer := []), a, Writing(s.shared.buffer, last), r);
    hide Put;
  }

  lemma {:induction false} CommitHolds(s: State, batch: seq<Record>, r: Record)
    ensures Held(s.(committed := s.committed + [batch]), r) == Held(s, r) + Copies(batch, r)
    ensures Held(s.(failed := s.failed + [batch]), r) == Held(s, r) + Copies(batch, r)
  {
    hide Flat, Copies, Carried, Load;
    FlatSnoc(s.committed, batch);
    FlatSnoc(s.failed, batch);
    CopiesConcat(Flat(s.committed), batch, r);
    CopiesConcat(Flat(s.failed), batch, r);
  }

  lemma WriteHolds(s: State, a: Actor, commits: bool, r: Record)
    requires At(s, a).Writing?
    ensures Held(WriteBatch(s, a, At(s, a).batch, At(s, a).last, commits), r) == Held(s, r)
  {
    hide Held, Copies, Only;
    var batch, last := At(s, a).batch, At(s, a).last;
    var sh := Process(s.shared, batch, commits);
    MoveHolds(s, sh, a, AfterFlush(last), r);
    var t := Put(s.(shared := sh), a, AfterFlush(last));
    AtPut(s.(shared := sh), a, AfterFlush(last), a);
    CommitHolds(t, batch, r);
    hide Put;
  }

  lemma {:induction false} StepHolds(c: Config, s: State, e: Event, r: Record)
    ensures Held(Step(c, s, e), r) == Held(s, r) + Copies(AcceptedBy(c, s, e), r)
  {
    hide Copies, TakeBatch, WriteBatch, Held;
    CopiesOfNone(r);
    assert s.(shared := s.shared) == s;
    match e
    case Receive(i) =>
      if At(s, Worker(i)).Idle? && s.shared.queue != [] {
        MoveHolds(s, s.shared.(queue := s.shared.queue[1..]), Worker(i), Holding(s.shared.queue[0]), r);
        CopiesHead(s.shared.queue, r);
      }
    case Append(i) =>
      if At(s, Worker(i)).Holding? {
        MoveHolds(s, s.shared.(buffer := s.shared.buffer + [At(s, Worker(i)).record]), Worker(i), Added, r);
        CopiesSnoc(s.shared.buffer, At(s, Worker(i)).record, r);
      }
    case Check(i) =>
      if At(s, Worker(i)).Added? {
        MoveHolds(s, s.shared, Worker(i), Flushing(false), r);
        MoveHolds(s, s.shared, Worker(i), Idle, r);
      }
    case Stop(i) =>
      if At(s, Worker(i)).Idle? {
        MoveHolds(s, s.shared, Worker(i), Stopped, r);
      }
    case Take(a) =>
      if At(s, a).Flushing? {
        TakeHolds(s, a, r);
      }
    case Write(a, commits) =>
      if At(s, a).Writing? {
        WriteHolds(s, a, commits, r);
      }
    case _ => OtherHolds(c, s, e, r);
  }

  lemma {:induction false} OtherHolds(c: Config, s: State, e: Event, r: Record)
    requires e.Offer? || e.Tick? || e.LastTick? || e.Cancel? || e.LastFlush?
    ensures Held(Step(c, s, e), r) == Held(s, r) + Copies(AcceptedBy(c, s, e), r)
  {
    hide Carried, Flat, Copies;
    CopiesOfNone(r);
    if e.Offer? {
      CopiesSnoc(s.shared.queue, e.record, r);
      CopiesSnoc([], e.record, r);
      assert [] + [e.record] == [e.record];
    }
  }

  /**
   Conservation: in every interleaving, every record that was accepted is, as often as it was
   accepted, queued, carried by a goroutine, buffered, committed or in a failed batch.
   */
  lemma {:induction false} Conservation(c: Config, s: State, es: seq<Event>, r: Record)
    ensures Held(Exec(c, s, es), r) == Held(s, r) + Copies(Accepted(c, s, es), r)
  {
    hide Step, Held, Copies, AcceptedBy;
    if es == [] {
      CopiesOfNone(r);
    } else {
      var t, last := Exec(c, s, es[..|es| - 1]), es[|es| - 1];
      Conservation(c, s, es[..|es| - 1], r);
      StepHolds(c, t, last, r);
      CopiesConcat(Accepted(c, s, es[..|es| - 1]), AcceptedBy(c, t, last), r);
    }
  }

  // -------------------------------------------------- the statistics are right

  lemma {:induction false} OnlyConcat(xs: seq<Record>, ys: seq<Record>, kind: Kind)
    ensures Only(xs + ys, kind) == Only(xs, kind) + Only(ys, kind)
  {
    if ys == [] {
      assert xs + ys == xs;
    } else {
      var zs := xs + ys;
      assert zs[..|zs| - 1] == xs + ys[..|ys| - 1] && zs[|zs| - 1] == ys[|ys| - 1];
      OnlyConcat(xs, ys[..|ys| - 1], kind);
    }
  }

  /** The tables hold the committed traffic and status records in order, and the statistics count them. */
  ghost predicate Counted(s: State) {
    var rows, stats := Flat(s.committed), s.shared.stats;
    && s.shared.trafficRows == Only(rows, TrafficDelta) && s.shared.statusRows == Only(rows, StatusChange)
    && stats.total == |rows| && stats.traffic == |s.shared.trafficRows| && stats.status == |s.shared.statusRows|
    && stats.batches == |s.committed| + |s.failed| && stats.errors == |s.failed|
  }

  lemma ProcessCounts(s: State, batch: seq<Record>, commits: bool)
    requires Counted(s)
    ensures var t := s.(shared := Process(s.shared, batch, commits));
            Counted(if commits then t.(committed := s.committed + [batch]) else t.(failed := s.failed + [batch]))
  {
    hide Only, Flat;
    FlatSnoc(s.committed, batch);
    OnlyConcat(Flat(s.committed), batch, TrafficDelta);
    OnlyConcat(Flat(s.committed), batch, StatusChange);
  }

  lemma StepCounts(c: Config, s: State, e: Event)
    requires Counted(s)
    ensures Counted(Step(c, s, e))
  {
    hide Only, Flat;
    if e.Write? && At(s, e.actor).Writing? {
      hide Process, Counted;
      ProcessCounts(s, At(s, e.actor).batch, e.commits);
      var t := s.(shared := Process(s.shared, At(s, e.actor).batch, e.commits));
      CountedPut(if e.commits then t.(committed := s.committed + [At(s, e.actor).batch])
                 else t.(failed := s.failed + [At(s, e.actor).batch]),
                 e.actor, AfterFlush(At(s, e.actor).last));
    }
  }

  lemma CountedPut(s: State, a: Actor, t: Thread)
    requires Counted(s)
    ensures Counted(Put(s, a, t))
  {
    hide Only, Flat;
  }

  lemma {:induction false} RunCounts(c: Config, s: State, es: seq<Event>)
    requires Counted(s)
    ensures Counted(Exec(c, s, es))
  {
    if es != [] {
      hide Step, Counted;
      RunCounts(c, s, es[..|es| - 1]);
      StepCounts(c, Exec(c, s, es[..|es| - 1]), es[|es| - 1]);
    }
  }

  lemma {:induction false} KindsPartition(rows: seq<Record>)
    ensures |Only(rows, TrafficDelta)| + |Only(rows, StatusChange)| + |Only(rows, Other)| == |rows|
    ensures Only(rows, Other) == [] <==> forall r :: r in rows ==> r.kind != Other
  {
    if rows != [] {
      var front, last := rows[..|rows| - 1], rows[|rows| - 1];
      KindsPartition(front);
      assert rows == front + [last];
    }
  }

  /** The total is the sum of the two kinds exactly when no committed record is of another kind. */
  lemma TotalIsSum(s: State)
    requires Counted(s)
    ensures s.shared.stats.total == s.shared.stats.traffic + s.shared.stats.status <==>
            forall r :: r in Flat(s.committed) ==> r.kind != Other
  {
    hide Only, Flat;
    KindsPartition(Flat(s.committed));
  }

  lemma {:induction false} AcceptedWereOffered(c: Config, s: State, es: seq<Event>)
    ensures forall r :: r in Accepted(c, s, es) ==> Offer(r) in es
  {
    if es != [] {
      hide Exec;
      AcceptedWereOffered(c, s, es[..|es| - 1]);
    }
  }

  lemma {:induction false} IdleCarriesNothing(ws: seq<Thread>, r: Record)
    requires forall t :: t in ws ==> t.Idle? || t.Stopped?
    ensures Carried(ws, r) == 0
  {
    if ws != [] {
      IdleCarriesNothing(ws[..|ws| - 1], r);
    }
  }

  lemma StartHolds(workerCount: int, r: Record)
    ensures Held(Start(workerCount), r) == 0 && Counted(Start(workerCount)) && Closing(Start(workerCount))
  {
    IdleCarriesNothing(Start(workerCount).workers, r);
  }

  /** With the two existing producers, TotalArchived = TrafficRecords + StatusChanges in every run. */
  lemma {:induction false} ProducersCount(c: Config, workerCount: int, es: seq<Event>)
    requires forall e :: e in es && e.Offer? ==> e.record.kind != Other
    ensures var stats := Exec(c, Start(workerCount), es).shared.stats;
            stats.total == stats.traffic + stats.status
  {
    hide Exec, Accepted, Counted, Copies, Start, Flat, Only, Carrying;
    var s := Start(workerCount);
    var t := Exec(c, s, es);
    StartHolds(workerCount, Record(Other, 0, "", 0));
    RunCounts(c, s, es);
    AcceptedWereOffered(c, s, es);
    forall r | r in Flat(t.committed) ensures r.kind != Other {
      StartHolds(workerCount, r);
      Conservation(c, s, es, r);
      CopiesMember(Flat(t.committed), r);
      CopiesMember(Accepted(c, s, es), r);
      assert Offer(r) in es;
    }
    TotalIsSum(t);
  }

  // --------------------------------------------------------------- shutdown

  /** Who may be where once the context is cancelled. */
  ghost predicate Closing(s: State) {
    && (s.timer.Idle? || s.timer.Flushing? || s.timer.Writing? || s.timer.Stopped?)
    && (s.timer.Stopped? ==> s.cancelled)
    && (s.closer != Idle ==> s.cancelled && AllStopped(s.workers) && s.timer == Stopped)
    && (s.closer.Idle? || (s.closer.Flushing? && s.closer.last) || (s.closer.Writing? && s.closer.last) ||
        s.closer.Stopped?)
    && (s.closer.Writing? || s.closer.Stopped? ==> s.shared.buffer == [])
    && ((s.timer.Flushing? || s.timer.Writing?) && s.timer.last ==> s.cancelled)
    && forall i :: 0 <= i < |s.workers| && (s.workers[i].Flushing? || s.workers[i].Writing?) ==> !s.workers[i].last
  }

  lemma StepCloses(c: Config, s: State, e: Event)
    requires Closing(s)
    ensures Closing(Step(c, s, e))
    ensures s.closer.Stopped? ==> Step(c, s, e).closer.Stopped?
  {
    hide Process;
    match e
    case Offer(r) =>
    case Take(a) =>
      if At(s, a).Flushing? {
        TakeCloses(s, a);
      }
    case Write(a, commits) =>
      if At(s, a).Writing? {
        WriteCloses(s, a, commits);
      }
    case _ =>
  }

  lemma TakeCloses(s: State, a: Actor)
    requires Closing(s) && At(s, a).Flushing?
    ensures Closing(TakeBatch(s, a, At(s, a).last))
  {
  }

  lemma WriteCloses(s: State, a: Actor, commits: bool)
    requires Closing(s) && At(s, a).Writing?
    ensures Closing(WriteBatch(s, a, At(s, a).batch, At(s, a).last, commits))
  {
    hide Only;
  }

  lemma {:induction false} RunCloses(c: Config, s: State, es: seq<Event>)
    requires Closing(s)
    ensures Closing(Exec(c, s, es))
    ensures s.closer.Stopped? ==> Exec(c, s, es).closer.Stopped?
  {
    if es != [] {
      hide Step, Closing;
      RunCloses(c, s, es[..|es| - 1]);
      StepCloses(c, Exec(c, s, es[..|es| - 1]), es[|es| - 1]);
    }
  }

  /**
   Once `Close` has returned, and ever after, the buffer is empty and no goroutine carries a record:
   what was accepted is committed, failed or still queued.
   */
  lemma {:induction false} AfterClose(c: Config, workerCount: int, es: seq<Event>, r: Record)
    requires Exec(c, Start(workerCount), es).closer.Stopped?
    ensures var t := Exec(c, Start(workerCount), es);
            && t.shared.buffer == [] && Carrying(t, r) == 0
            && Copies(Accepted(c, Start(workerCount), es), r) ==
               Copies(t.shared.queue, r) + Copies(Flat(t.committed), r) + Copies(Flat(t.failed), r)
  {
    hide Exec, Accepted, Copies, Start, Flat, Carried;
    var s := Start(workerCount);
    var t := Exec(c, s, es);
    StartHolds(workerCount, r);
    RunCloses(c, s, es);
    IdleCarriesNothing(t.workers, r);
    Conservation(c, s, es, r);
    CopiesOfNone(r);
  }

  ghost predicate AllCommitted(c: Config, workerCount: int, es: seq<Event>) {
    forall r :: Copies(Accepted(c, Start(workerCount), es), r) ==
      Copies(Flat(Exec(c, Start(workerCount), es).committed), r)
  }

  /**
   After `Close` everything accepted has been committed exactly when no batch failed and the queue
   happens to be empty, since nothing drains it.
   */
  lemma {:induction false} AllCommittedExactly(c: Config, workerCount: int, es: seq<Event>)
    requires Exec(c, Start(workerCount), es).closer.Stopped?
    ensures var t := Exec(c, Start(workerCount), es);
            AllCommitted(c, workerCount, es) <==> t.shared.queue == [] && Flat(t.failed) == []
  {
    hide Exec, Accepted, Copies, Start, Flat, Carrying;
    var t := Exec(c, Start(workerCount), es);
    var queue, failed := t.shared.queue, Flat(t.failed);
    if queue == [] && failed == [] {
      forall r ensures Copies(Accepted(c, Start(workerCount), es), r) == Copies(Flat(t.committed), r) {
        AfterClose(c, workerCount, es, r);
        CopiesOfNone(r);
      }
    } else {
      var r := if queue != [] then queue[0] else failed[0];
      AfterClose(c, workerCount, es, r);
      CopiesMember(queue, r);
      CopiesMember(failed, r);
      assert Copies(Accepted(c, Start(workerCount), es), r) != Copies(Flat(t.committed), r);
    }
  }

  lemma StepCapacity(c: Config, s: State, e: Event)
    requires |s.shared.queue| <= c.capacity
    ensures |Step(c, s, e).shared.queue| <= c.capacity
  {
    hide Only;
  }

  /** The queue never holds more than its capacity. */
  lemma {:induction false} QueueWithinCapacity(c: Config, s: State, es: seq<Event>)
    requires |s.shared.queue| <= c.capacity
    ensures |Exec(c, s, es).shared.queue| <= c.capacity
  {
    hide Step;
    if es != [] {
      QueueWithinCapacity(c, s, es[..|es| - 1]);
      StepCapacity(c, Exec(c, s, es[..|es| - 1]), es[|es| - 1]);
    }
  }

  // ------------------------------------------------- what a shutdown can leave

  predicate NoOffers(es: seq<Event>) {
    forall e :: e in es ==> !e.Offer?
  }

  predicate NoFailures(es: seq<Event>) {
    forall e :: e in es ==> e.Write? ==> e.commits
  }

  /** A way for `Close` to go to its end: no more offers, every write committing. */
  ghost predicate Completes(c: Config, s: State, fs: seq<Event>) {
    NoOffers(fs) && NoFailures(fs) && Exec(c, s, fs).closer.Stopped?
  }

  lemma StepQuiet(c: Config, s: State, e: Event)
    requires !e.Offer? && (e.Write? ==> e.commits)
    ensures s.shared.queue == [] ==> Step(c, s, e).shared.queue == []
    ensures Step(c, s, e).failed == s.failed && (s.cancelled ==> Step(c, s, e).cancelled)
  {
    hide Only;
  }

  /** An empty queue stays empty, and no batch fails. */
  lemma {:induction false} RunQuiet(c: Config, s: State, fs: seq<Event>)
    requires NoOffers(fs) && NoFailures(fs)
    ensures s.shared.queue == [] ==> Exec(c, s, fs).shared.queue == []
    ensures Exec(c, s, fs).failed == s.failed && (s.cancelled ==> Exec(c, s, fs).cancelled)
  {
    if fs != [] {
      hide Step;
      var front, last := fs[..|fs| - 1], fs[|fs| - 1];
      assert last in fs && forall e :: e in front ==> e in fs;
      RunQuiet(c, s, front);
      StepQuiet(c, Exec(c, s, front), last);
    }
  }

  /** What a goroutine still has to do, whatever it stands at; steps that do not apply change nothing. */
  function WindUp(i: nat): seq<Event> {
    [Append(i)] + [Check(i)] + [Take(Worker(i))] + [Write(Worker(i), true)] + [Stop(i)]
  }

  const WIND_UP_TIMER := [Take(Timer)] + [Write(Timer, true)] + [LastTick] + [Take(Timer)] + [Write(Timer, true)]

  const WIND_UP_CLOSER := [LastFlush] + [Take(Closer)] + [Write(Closer, true)]

  function WindUpAll(n: nat): seq<Event> {
    if n == 0 then [] else WindUpAll(n - 1) + WindUp(n - 1)
  }

  lemma {:induction false} ExecOne(c: Config, s: State, e: Event)
    ensures Exec(c, s, [e]) == Step(c, s, e)
  {
    hide Step;
    ExecSnoc(c, s, [], e);
    assert [] + [e] == [e];
  }

  lemma {:induction false} ExecFive(c: Config, s: State, a: Event, b: Event, d: Event, e: Event, f: Event)
    ensures Exec(c, s, [a] + [b] + [d] + [e] + [f]) == Step(c, Step(c, Step(c, Step(c, Step(c, s, a), b), d), e), f)
  {
    hide Step, Exec;
    ExecOne(c, s, a);
    ExecSnoc(c, s, [a], b);
    ExecSnoc(c, s, [a] + [b], d);
    ExecSnoc(c, s, [a] + [b] + [d], e);
    ExecSnoc(c, s, [a] + [b] + [d] + [e], f);
  }

  lemma {:induction false} ExecThree(c: Config, s: State, a: Event, b: Event, d: Event)
    ensures Exec(c, s, [a] + [b] + [d]) == Step(c, Step(c, Step(c, s, a), b), d)
  {
    hide Step, Exec;
    ExecOne(c, s, a);
    ExecSnoc(c, s, [a], b);
    ExecSnoc(c, s, [a] + [b], d);
  }

  /** What winding up one goroutine leaves alone. */
  predicate Aside(s: State, t: State, a: Actor) {
    && t.shared.queue == s.shared.queue && t.cancelled == s.cancelled && |t.workers| == |s.workers|
    && (a != Timer ==> t.timer == s.timer) && (a != Closer ==> t.closer == s.closer)
    && forall i :: 0 <= i < |s.workers| && a != Worker(i) ==> t.workers[i] == s.workers[i]
  }

  /** The events of one goroutine that winding up uses. */
  predicate Own(e: Event, a: Actor) {
    e == Take(a) || e == Write(a, true) ||
    match a
    case Worker(i) => e == Append(i) || e == Check(i) || e == Stop(i)
    case Timer => e == LastTick
    case Closer => e == LastFlush
  }

  lemma StepAside(c: Config, s: State, e: Event, a: Actor)
    requires Own(e, a)
    ensures Aside(s, Step(c, s, e), a)
  {
    hide Only;
  }

  lemma AsideTwice(s: State, t: State, u: State, a: Actor)
    requires Aside(s, t, a) && Aside(t, u, a)
    ensures Aside(s, u, a)
  {
  }

  lemma FiveAside(c: Config, s: State, a: Actor, e1: Event, e2: Event, e3: Event, e4: Event, e5: Event)
    requires Own(e1, a) && Own(e2, a) && Own(e3, a) && Own(e4, a) && Own(e5, a)
    ensures Aside(s, Step(c, Step(c, Step(c, Step(c, Step(c, s, e1), e2), e3), e4), e5), a)
  {
    hide Step, Aside, Own;
    var s1 := Step(c, s, e1);
    var s2 := Step(c, s1, e2);
    var s3 := Step(c, s2, e3);
    var s4 := Step(c, s3, e4);
    StepAside(c, s, e1, a);
    StepAside(c, s1, e2, a);
    StepAside(c, s2, e3, a);
    StepAside(c, s3, e4, a);
    StepAside(c, s4, e5, a);
    AsideTwice(s, s1, s2, a);
    AsideTwice(s, s2, s3, a);
    AsideTwice(s, s3, s4, a);
    AsideTwice(s, s4, Step(c, s4, e5), a);
  }

  lemma {:induction false} WorkerWindsUp(c: Config, s: State, i: nat)
    requires s.cancelled && i < |s.workers|
    ensures var t := Exec(c, s, WindUp(i));
            Aside(s, t, Worker(i)) && t.workers[i] == Stopped
  {
    hide Exec, Aside, Process;
    ExecFive(c, s, Append(i), Check(i), Take(Worker(i)), Write(Worker(i), true), Stop(i));
    FiveAside(c, s, Worker(i), Append(i), Check(i), Take(Worker(i)), Write(Worker(i), true), Stop(i));
    WorkerEnds(c, s, i);
    hide Step;
  }

  lemma WorkerEnds(c: Config, s: State, i: nat)
    requires s.cancelled && i < |s.workers|
    ensures At(Step(c, Step(c, Step(c, Step(c, Step(c, s, Append(i)), Check(i)), Take(Worker(i))),
                            Write(Worker(i), true)), Stop(i)), Worker(i))
            == Stopped
  {
    hide Process;
    var s1 := Step(c, s, Append(i));
    assert s1.cancelled && |s1.workers| == |s.workers| && !At(s1, Worker(i)).Holding?;
    var s2 := Step(c, s1, Check(i));
    assert s2.cancelled && |s2.workers| == |s.workers| && !At(s2, Worker(i)).Holding? && !At(s2, Worker(i)).Added?;
    var s3 := Step(c, s2, Take(Worker(i)));
    assert s3.cancelled && |s3.workers| == |s.workers| &&
           (At(s3, Worker(i)) in {Idle, Stopped} || At(s3, Worker(i)).Writing?);
    var s4 := Step(c, s3, Write(Worker(i), true));
    assert s4.cancelled && |s4.workers| == |s.workers| && At(s4, Worker(i)) in {Idle, Stopped};
  }

  lemma {:induction false} TimerWindsUp(c: Config, s: State)
    requires s.cancelled && Closing(s)
    ensures var t := Exec(c, s, WIND_UP_TIMER);
            t.timer == Stopped && Aside(s, t, Timer)
  {
    hide Exec, Aside, Process;
    ExecFive(c, s, Take(Timer), Write(Timer, true), LastTick, Take(Timer), Write(Timer, true));
    FiveAside(c, s, Timer, Take(Timer), Write(Timer, true), LastTick, Take(Timer), Write(Timer, true));
    TimerEnds(c, s);
    hide Step;
  }

  lemma TimerEnds(c: Config, s: State)
    requires s.cancelled && !s.timer.Holding? && !s.timer.Added?
    ensures Step(c, Step(c, Step(c, Step(c, Step(c, s, Take(Timer)), Write(Timer, true)), LastTick), Take(Timer)),
                 Write(Timer, true)).timer
            == Stopped
  {
    hide Process;
    var s1 := Step(c, s, Take(Timer));
    assert s1.cancelled && (s1.timer in {Idle, Stopped} || s1.timer.Writing?);
    var s2 := Step(c, s1, Write(Timer, true));
    assert s2.cancelled && s2.timer in {Idle, Stopped};
    var s3 := Step(c, s2, LastTick);
    assert s3.timer in {Flushing(true), Stopped};
    var s4 := Step(c, s3, Take(Timer));
    assert s4.timer == Stopped || (s4.timer.Writing? && s4.timer.last);
  }

  lemma {:induction false} CloserWindsUp(c: Config, s: State)
    requires s.cancelled && s.closer == Idle && s.timer == Stopped && AllStopped(s.workers)
    ensures var t := Exec(c, s, WIND_UP_CLOSER);
            t.closer == Stopped && t.shared.queue == s.shared.queue
  {
    hide Only, Exec;
    ExecThree(c, s, LastFlush, Take(Closer), Write(Closer, true));
    var s1 := Step(c, s, LastFlush);
    assert s1 == s.(closer := Flushing(true));
    var s2 := Step(c, s1, Take(Closer));
    assert s2.shared.queue == s.shared.queue && (s2.closer == Stopped || (s2.closer.Writing? && s2.closer.last));
  }

  /** The first n workers have ended, and nothing else has changed but what they flushed. */
  predicate Ended(s: State, t: State, n: nat) {
    && t.shared.queue == s.shared.queue && t.cancelled == s.cancelled && |t.workers| == |s.workers|
    && t.timer == s.timer && t.closer == s.closer
    && forall i :: 0 <= i < |s.workers| && i < n ==> t.workers[i] == Stopped
  }

  lemma OneMoreEnded(s: State, t: State, u: State, n: nat)
    requires Ended(s, t, n) && n < |s.workers| && Aside(t, u, Worker(n)) && u.workers[n] == Stopped
    ensures Ended(s, u, n + 1)
  {
  }

  lemma {:induction false} WorkersWindUp(c: Config, s: State, n: nat)
    requires s.cancelled && n <= |s.workers|
    ensures Ended(s, Exec(c, s, WindUpAll(n)), n)
  {
    if n == 0 {
      assert WindUpAll(0) == [];
    } else {
      hide Exec, WindUp, Aside;
      WorkersWindUp(c, s, n - 1);
      var t := Exec(c, s, WindUpAll(n - 1));
      ExecConcat(c, s, WindUpAll(n - 1), WindUp(n - 1));
      WorkerWindsUp(c, t, n - 1);
      OneMoreEnded(s, t, Exec(c, t, WindUp(n - 1)), n - 1);
    }
  }

  lemma {:induction false} WindUpIsQuiet(n: nat)
    ensures NoOffers(WindUpAll(n)) && NoFailures(WindUpAll(n))
  {
    if n > 0 {
      WindUpIsQuiet(n - 1);
      var front, last := WindUpAll(n - 1), WindUp(n - 1);
      forall e: Event | e in front + last ensures !e.Offer? && (e.Write? ==> e.commits) {
        assert e in front || e in last;
      }
    }
  }

  /** From every state after the cancellation `Close` can end, and without anyone taking from the queue. */
  lemma CloseCanEnd(c: Config, s: State) returns (fs: seq<Event>)
    requires s.cancelled && s.closer == Idle && Closing(s)
    ensures Completes(c, s, fs) && Exec(c, s, fs).shared.queue == s.shared.queue
  {
    var n := |s.workers|;
    fs := WindUpAll(n) + WIND_UP_TIMER + WIND_UP_CLOSER;
    WindUpIsQuiet(n);
    forall e | e in fs ensures !e.Offer? && (e.Write? ==> e.commits) {
      assert e in WindUpAll(n) || e in WIND_UP_TIMER || e in WIND_UP_CLOSER;
    }
    hide Exec, WindUpAll;
    ExecConcat(c, s, WindUpAll(n) + WIND_UP_TIMER, WIND_UP_CLOSER);
    ExecConcat(c, s, WindUpAll(n), WIND_UP_TIMER);
    WorkersWindUp(c, s, n);
    RunCloses(c, s, WindUpAll(n));
    var t := Exec(c, s, WindUpAll(n));
    TimerWindsUp(c, t);
    var u := Exec(c, t, WIND_UP_TIMER);
    assert AllStopped(u.workers);
    CloserWindsUp(c, u);
    assert NoOffers(fs) && NoFailures(fs);
    assert Exec(c, s, fs) == Exec(c, u, WIND_UP_CLOSER);
  }

  /**
   The state at the cancellation decides: if no batch has failed so far, none fails later and nothing
   more is offered, then every way for `Close` to end commits all that was accepted exactly when the
   queue was empty.
   */
  lemma {:induction false} QueueAtCancelDecides(c: Config, workerCount: int, es: seq<Event>)
    requires var s := Exec(c, Start(workerCount), es);
             s.cancelled && s.closer == Idle && s.failed == []
    ensures (forall fs :: Completes(c, Exec(c, Start(workerCount), es), fs) ==> AllCommitted(c, workerCount, es + fs))
            <==> Exec(c, Start(workerCount), es).shared.queue == []
  {
    var start := Start(workerCount);
    var s := Exec(c, start, es);
    StartHolds(workerCount, Record(Other, 0, "", 0));
    RunCloses(c, start, es);
    assert Flat<Record>([]) == [];
    hide Exec, Start, AllCommitted, Flat, Closing;
    if s.shared.queue == [] {
      forall fs | Completes(c, s, fs) ensures AllCommitted(c, workerCount, es + fs) {
        ExecConcat(c, start, es, fs);
        RunQuiet(c, s, fs);
        AllCommittedExactly(c, workerCount, es + fs);
      }
    } else {
      var fs := CloseCanEnd(c, s);
      ExecConcat(c, start, es, fs);
      AllCommittedExactly(c, workerCount, es + fs);
      assert Completes(c, s, fs) && !AllCommitted(c, workerCount, es + fs);
    }
  }

  /** A record is offered, the context cancelled, and every goroutine ends. */
  function LeavingRun(r: Record): seq<Event> {
    ([Offer(r)] + [Cancel] + [Stop(0)] + [LastTick] + [Take(Timer)]) + ([LastFlush] + [Take(Closer)])
  }

  /** With one worker and room in the queue, that run of `Close` leaves the record queued. */
  lemma {:induction false} CloseLeavesRecord(c: Config, r: Record)
    requires c.capacity > 0
    ensures var s := Exec(c, Start(1), LeavingRun(r));
            && s.closer == Stopped && s.shared.queue == [r] && s.committed == [] && s.failed == []
            && Accepted(c, Start(1), LeavingRun(r)) == [r]
  {
    var front, back := [Offer(r)] + [Cancel] + [Stop(0)] + [LastTick] + [Take(Timer)], [LastFlush] + [Take(Closer)];
    var s := Start(1);
    AcceptedFirst(c, s, r, LeavingRun(r));
    hide Exec, Accepted, Start;
    ExecFive(c, s, Offer(r), Cancel, Stop(0), LastTick, Take(Timer));
    ExecConcat(c, s, front, back);
    var t := Exec(c, s, front);
    AllEndAtOnce(c, r);
    ExecOne(c, t, LastFlush);
    ExecSnoc(c, t, [LastFlush], Take(Closer));
    StartIsEmpty();
    ClosesAtOnce(c, t);
    hide Step;
  }

  lemma StartIsEmpty()
    ensures Start(1).shared.buffer == []
  {
  }

  lemma ClosesAtOnce(c: Config, s: State)
    requires s.cancelled && s.workers == [Stopped] && s.timer == Stopped && s.closer == Idle && s.shared.buffer == []
    ensures Step(c, Step(c, s, LastFlush), Take(Closer)) == s.(closer := Stopped)
  {
    assert Step(c, s, LastFlush) == s.(closer := Flushing(true));
  }

  lemma AllEndAtOnce(c: Config, r: Record)
    requires c.capacity > 0
    ensures Step(c, Step(c, Step(c, Step(c, Step(c, Start(1), Offer(r)), Cancel), Stop(0)), LastTick), Take(Timer)) ==
            State(Start(1).shared.(queue := [r]), [Stopped], Stopped, Idle, true, [], [])
  {
    hide Process;
    var s := Start(1);
    assert s.workers == [Idle] && [] + [r] == [r];
    var s2 := Step(c, Step(c, s, Offer(r)), Cancel);
    assert s2 == State(s.shared.(queue := [r]), [Idle], Idle, Idle, true, [], []);
    var s3 := Step(c, s2, Stop(0));
    assert s3 == s2.(workers := [Stopped]);
    assert Step(c, s3, LastTick) == s3.(timer := Flushing(true));
  }

  lemma {:induction false} AcceptedFirst(c: Config, s: State, r: Record, es: seq<Event>)
    requires es != [] && es[0] == Offer(r) && |s.shared.queue| < c.capacity && NoOffers(es[1..])
    ensures Accepted(c, s, es) == [r]
  {
    var n := |es| - 1;
    if n == 0 {
      assert es[..0] == [] && Exec(c, s, es[..0]) == s;
    } else {
      hide Exec;
      assert es[..n][1..] == es[1..n] && es[n] in es[1..];
      assert NoOffers(es[..n][1..]) by {
        forall e | e in es[1..n] ensures e in es[1..] {
        }
      }
      AcceptedFirst(c, s, r, es[..n]);
    }
  }
}
