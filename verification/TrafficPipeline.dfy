/**
 Every interleaving of the traffic history goroutines: points enter the hour cache, records move
 one by one into the bounded channel, from there into the buffer, and in batches into the table.
 */
module TrafficPipeline {
  import opened Wrappers
  import opened TrafficHistory

  const SECONDS_PER_HOUR := 3600
  const CHANNEL_CAPACITY := 1000

  /** `lost` collects the records of batches whose transaction failed. */
  datatype State = State(cache: map<string, Record>, queue: seq<Record>, buffer: seq<Record>, rows: seq<Record>,
                         lost: seq<Record>)

  datatype Event =
    | Add(endpoint: int, instance: string, now: int, totals: Totals, delta: Delta)
    | Move(cacheKey: string)
    | Receive
    | Flush(committed: bool)

  function HourOf(now: int): (hour: int)
    ensures hour <= now < hour + SECONDS_PER_HOUR && hour % SECONDS_PER_HOUR == 0
  {
    now - now % SECONDS_PER_HOUR
  }

  /** The record a single point stands for; its sample count is one. */
  function PointOf(e: Event): Record
    requires e.Add?
  {
    Record(Key(e.endpoint, e.instance, HourOf(e.now)), e.delta.(samples := 1), e.totals)
  }

  function AddPoint(cache: map<string, Record>, p: Record): map<string, Record> {
    var ck := CacheKey(p.key);
    if ck in cache then
      cache[ck := Record(cache[ck].key, Plus(cache[ck].delta, p.delta), p.totals)]
    else cache[ck := p]
  }

  /** One loop pass of `FlushAggregateCache`: a full channel leaves the record in the cache. */
  function MoveRecord(s: State, ck: string): State {
    if ck in s.cache && |s.queue| < CHANNEL_CAPACITY then
      s.(cache := s.cache - {ck}, queue := s.queue + [s.cache[ck]])
    else s
  }

  function Step(s: State, e: Event): State {
    match e
    case Add(_, _, _, _, _) => s.(cache := AddPoint(s.cache, PointOf(e)))
    case Move(ck) => MoveRecord(s, ck)
    case Receive => if s.queue == [] then s else s.(queue := s.queue[1..], buffer := s.buffer + [s.queue[0]])
    case Flush(committed) =>
      if s.buffer == [] then s
      else if committed then s.(buffer := [], rows := UpsertAll(s.rows, s.buffer))
      else s.(buffer := [], lost := s.lost + s.buffer)
  }

  function Exec(s: State, es: seq<Event>): State {
    if es == [] then s else Step(Exec(s, es[..|es| - 1]), es[|es| - 1])
  }

  /** All points added in a run, in order. */
  function Points(es: seq<Event>): seq<Record> {
    if es == [] then []
    else
      var front := Points(es[..|es| - 1]);
      if es[|es| - 1].Add? then front + [PointOf(es[|es| - 1])] else front
  }

  /** Every cached record sits under its own key, and the table has one row per key. */
  ghost predicate Inv(s: State) {
    OwnKeys(s.cache) && UniqueKeys(s.rows)
  }

  function CachedSum(cache: map<string, Record>, k: Key): Delta {
    if CacheKey(k) in cache then cache[CacheKey(k)].delta else ZERO
  }

  function CachedLast(cache: map<string, Record>, k: Key): Option<Totals> {
    if CacheKey(k) in cache then Some(cache[CacheKey(k)].totals) else None
  }

  /** The increments of a key summed over all stages and the failed batches. */
  function Held(s: State, k: Key): Delta {
    Plus(SumFor(s.lost, k),
         Plus(SumFor(s.rows, k), Plus(SumFor(s.buffer, k), Plus(SumFor(s.queue, k), CachedSum(s.cache, k)))))
  }

  /** The absolute counters of a key in the newest stage that holds it. */
  function Newest(s: State, k: Key): Option<Totals> {
    Later(CachedLast(s.cache, k), Later(LastFor(s.queue, k), Later(LastFor(s.buffer, k), LastFor(s.rows, k))))
  }

  // ------------------------------------------------------- each step conserves

  ghost predicate OwnKeys(cache: map<string, Record>) {
    forall ck :: ck in cache ==> ck == CacheKey(cache[ck].key)
  }

  lemma AddCounts(cache: map<string, Record>, p: Record, k: Key)
    requires OwnKeys(cache)
    ensures OwnKeys(AddPoint(cache, p))
    ensures CachedSum(AddPoint(cache, p), k) == if p.key == k then Plus(CachedSum(cache, k), p.delta)
            else CachedSum(cache, k)
    ensures CachedLast(AddPoint(cache, p), k) == if p.key == k then Some(p.totals) else CachedLast(cache, k)
  {
    hide CacheKey;
    var ck := CacheKey(p.key);
    if ck in cache {
      CacheKeyInjective(cache[ck].key, p.key);
    }
    if CacheKey(k) == ck {
      CacheKeyInjective(k, p.key);
    }
    PlusLaws(ZERO, p.delta, ZERO);
    hide Plus;
  }

  /** A record leaves the cache exactly when it enters the channel. */
  lemma {:induction false} MoveCounts(s: State, ck: string, k: Key)
    requires OwnKeys(s.cache)
    ensures var t := MoveRecord(s, ck);
            && OwnKeys(t.cache)
            && Plus(SumFor(t.queue, k), CachedSum(t.cache, k)) == Plus(SumFor(s.queue, k), CachedSum(s.cache, k))
            && Later(CachedLast(t.cache, k), LastFor(t.queue, k)) == Later(CachedLast(s.cache, k), LastFor(s.queue, k))
  {
    hide CacheKey, SumFor, LastFor;
    if ck in s.cache && |s.queue| < CHANNEL_CAPACITY {
      var r := s.cache[ck];
      ForSnoc(s.queue, r, k);
      PlusLaws(SumFor(s.queue, k), r.delta, ZERO);
      if CacheKey(k) == ck {
        CacheKeyInjective(k, r.key);
      }
      hide Plus;
    }
  }

  lemma {:induction false} SumHead(rs: seq<Record>, k: Key)
    requires rs != []
    ensures SumFor(rs, k) == Plus(SumFor([rs[0]], k), SumFor(rs[1..], k))
    ensures LastFor(rs, k) == Later(LastFor(rs[1..], k), LastFor([rs[0]], k))
  {
    hide SumFor, LastFor, Plus;
    var head, tail := [rs[0]], rs[1..];
    assert head + tail == rs;
    SumOfConcat(head, tail, k);
    LastOfConcat(head, tail, k);
  }

  /** The head of the channel becomes the last of the buffer. */
  lemma {:induction false} ReceiveCounts(s: State, k: Key)
    ensures var t := Step(s, Receive);
            && Plus(SumFor(t.buffer, k), SumFor(t.queue, k)) == Plus(SumFor(s.buffer, k), SumFor(s.queue, k))
            && Later(LastFor(t.queue, k), LastFor(t.buffer, k)) == Later(LastFor(s.queue, k), LastFor(s.buffer, k))
  {
    hide SumFor, LastFor;
    if s.queue != [] {
      hide Plus;
      SumHead(s.queue, k);
      SumOfConcat(s.buffer, [s.queue[0]], k);
      LastOfConcat(s.buffer, [s.queue[0]], k);
      PlusLaws(SumFor(s.buffer, k), SumFor([s.queue[0]], k), SumFor(s.queue[1..], k));
    }
  }

  /** A batch moves to the table or to the failed records. */
  lemma {:induction false} FlushCounts(s: State, committed: bool, k: Key)
    requires UniqueKeys(s.rows)
    ensures var t := Step(s, Flush(committed));
            && UniqueKeys(t.rows)
            && Plus(SumFor(t.lost, k), Plus(SumFor(t.rows, k), SumFor(t.buffer, k))) ==
               Plus(SumFor(s.lost, k), Plus(SumFor(s.rows, k), SumFor(s.buffer, k)))
            && (LastFor(t.lost, k) == None ==>
                Later(LastFor(t.buffer, k), LastFor(t.rows, k)) == Later(LastFor(s.buffer, k), LastFor(s.rows, k)))
            && (LastFor(t.lost, k) == None ==> LastFor(s.lost, k) == None)
  {
    hide UniqueKeys, UpsertAll, SumFor, LastFor, Plus;
    var lost, rows, buffer := SumFor(s.lost, k), SumFor(s.rows, k), SumFor(s.buffer, k);
    UpsertAllMeans(s.rows, s.buffer, k);
    SumOfConcat(s.lost, s.buffer, k);
    LastOfConcat(s.lost, s.buffer, k);
    ForNone(k);
    PlusLaws(Plus(rows, buffer), ZERO, ZERO);
    PlusLaws(rows, ZERO, ZERO);
    PlusLaws(lost, buffer, rows);
    PlusLaws(buffer, rows, ZERO);
  }

  lemma Regroup(a: Delta, b: Delta, c: Delta, d: Delta, e: Delta)
    ensures Plus(a, Plus(b, Plus(c, Plus(d, e)))) == Plus(Plus(a, Plus(b, c)), Plus(d, e))
    ensures Plus(a, Plus(b, Plus(c, Plus(d, e)))) == Plus(Plus(a, b), Plus(c, Plus(d, e)))
    ensures Plus(a, Plus(b, Plus(c, Plus(d, e)))) == Plus(Plus(a, b), Plus(Plus(c, d), e))
  {
  }

  function AddedBy(e: Event, k: Key): Delta {
    if e.Add? && PointOf(e).key == k then PointOf(e).delta else ZERO
  }

  /** One step adds exactly its own point to what is held, and keeps the invariant. */
  lemma StepHolds(s: State, e: Event, k: Key)
    requires Inv(s)
    ensures Inv(Step(s, e))
    ensures Held(Step(s, e), k) == Plus(Held(s, k), AddedBy(e, k))
  {
    hide SumFor, LastFor, UniqueKeys, CacheKey;
    var t := Step(s, e);
    forall x | x == s || x == t
      ensures Held(x, k) == Plus(Plus(SumFor(x.lost, k), Plus(SumFor(x.rows, k), SumFor(x.buffer, k))),
                                 Plus(SumFor(x.queue, k), CachedSum(x.cache, k)))
      ensures Held(x, k) == Plus(Plus(SumFor(x.lost, k), SumFor(x.rows, k)),
                                 Plus(SumFor(x.buffer, k), Plus(SumFor(x.queue, k), CachedSum(x.cache, k))))
      ensures Held(x, k) == Plus(Plus(SumFor(x.lost, k), SumFor(x.rows, k)),
                                 Plus(Plus(SumFor(x.buffer, k), SumFor(x.queue, k)), CachedSum(x.cache, k)))
    {
      Regroup(SumFor(x.lost, k), SumFor(x.rows, k), SumFor(x.buffer, k), SumFor(x.queue, k), CachedSum(x.cache, k));
    }
    PlusLaws(Held(s, k), ZERO, ZERO);
    match e
    case Add(_, _, _, _, _) =>
      AddCounts(s.cache, PointOf(e), k);
      hide AddPoint, CachedSum;
    case Move(ck) =>
      MoveCounts(s, ck, k);
      hide CachedSum, Plus;
    case Receive =>
      ReceiveCounts(s, k);
      hide CachedSum, Plus;
    case Flush(committed) =>
      FlushCounts(s, committed, k);
      hide CachedSum, Plus;
  }

  /**
   Conservation: in every interleaving, for every endpoint, instance and hour, the increments and
   sample counts in cache, channel, buffer, table and failed batches are those of all points added.
   */
  lemma {:induction false} Conservation(s: State, es: seq<Event>, k: Key)
    requires Inv(s)
    ensures Inv(Exec(s, es))
    ensures Held(Exec(s, es), k) == Plus(Held(s, k), SumFor(Points(es), k))
  {
    hide Step, Held, Plus, SumFor, Inv;
    if es == [] {
      ForNone(k);
      PlusLaws(Held(s, k), ZERO, ZERO);
    } else {
      var front, last := es[..|es| - 1], es[|es| - 1];
      Conservation(s, front, k);
      StepHolds(Exec(s, front), last, k);
      PlusLaws(Held(s, k), SumFor(Points(front), k), AddedBy(last, k));
      PointsStep(es, k);
    }
  }

  lemma PointsStep(es: seq<Event>, k: Key)
    requires es != []
    ensures SumFor(Points(es), k) == Plus(SumFor(Points(es[..|es| - 1]), k), AddedBy(es[|es| - 1], k))
    ensures LastFor(Points(es), k) ==
            if es[|es| - 1].Add? && PointOf(es[|es| - 1]).key == k then Some(es[|es| - 1].totals)
            else LastFor(Points(es[..|es| - 1]), k)
  {
    var front, last := es[..|es| - 1], es[|es| - 1];
    PlusLaws(SumFor(Points(front), k), ZERO, ZERO);
    if last.Add? {
      ForSnoc(Points(front), PointOf(last), k);
    }
    hide SumFor, LastFor, Plus;
  }

  lemma {:induction false} StepNewest(s: State, e: Event, k: Key)
    requires Inv(s) && LastFor(Step(s, e).lost, k) == None
    ensures LastFor(s.lost, k) == None
    ensures Newest(Step(s, e), k) == if e.Add? && PointOf(e).key == k then Some(e.totals) else Newest(s, k)
  {
    hide SumFor, LastFor, UniqueKeys, CacheKey, Plus;
    match e
    case Add(_, _, _, _, _) => AddCounts(s.cache, PointOf(e), k);
    case Move(ck) => MoveCounts(s, ck, k);
    case Receive => ReceiveCounts(s, k);
    case Flush(committed) => FlushCounts(s, committed, k);
  }

  /**
   The newest stage that holds a key carries the counters of its last point, as long as no failed
   batch held a record of that key.
   */
  lemma {:induction false} NewestIsLatest(s: State, es: seq<Event>, k: Key)
    requires Inv(s) && LastFor(Exec(s, es).lost, k) == None
    ensures LastFor(s.lost, k) == None
    ensures Newest(Exec(s, es), k) == Later(LastFor(Points(es), k), Newest(s, k))
  {
    hide Step, Newest, LastFor, Inv;
    if es == [] {
      ForNone(k);
    } else {
      var front, last := es[..|es| - 1], es[|es| - 1];
      Conservation(s, front, k);
      StepNewest(Exec(s, front), last, k);
      NewestIsLatest(s, front, k);
      PointsStep(es, k);
    }
  }

  // --------------------------------------------------- when points are missing

  const EMPTY := State(map[], [], [], [], [])

  /** The increments of a key that are still on their way or in the table. */
  function Kept(s: State, k: Key): Delta {
    Plus(SumFor(s.rows, k), Plus(SumFor(s.buffer, k), Plus(SumFor(s.queue, k), CachedSum(s.cache, k))))
  }

  ghost predicate Sampled(rs: seq<Record>) {
    forall r :: r in rs ==> r.delta.samples > 0
  }

  /** Every record outside the table stands for one point at least. */
  ghost predicate AllSampled(s: State) {
    && (forall ck :: ck in s.cache ==> s.cache[ck].delta.samples > 0)
    && Sampled(s.queue) && Sampled(s.buffer) && Sampled(s.lost)
  }

  lemma StepSampled(s: State, e: Event)
    requires AllSampled(s)
    ensures AllSampled(Step(s, e))
  {
    hide CacheKey, UpsertAll, HourOf;
  }

  lemma {:induction false} RunSampled(es: seq<Event>)
    ensures AllSampled(Exec(EMPTY, es))
  {
    if es == [] {
      hide Step;
    } else {
      hide Step, AllSampled;
      RunSampled(es[..|es| - 1]);
      StepSampled(Exec(EMPTY, es[..|es| - 1]), es[|es| - 1]);
    }
  }

  lemma {:induction false} SamplesCount(rs: seq<Record>, k: Key)
    requires Sampled(rs)
    ensures SumFor(rs, k).samples >= 0
    ensures (exists r :: r in rs && r.key == k) ==> SumFor(rs, k).samples > 0
  {
    if rs != [] {
      var front, last := rs[..|rs| - 1], rs[|rs| - 1];
      assert rs == front + [last] && last in rs;
      SamplesCount(front, k);
    }
  }

  /** Event number i is not a failed flush of a buffer with records in it. */
  predicate FlushesNothing(es: seq<Event>, i: nat)
    requires i < |es|
  {
    es[i] == Flush(false) ==> Exec(EMPTY, es[..i]).buffer == []
  }

  lemma {:induction false} FlushesSnoc(front: seq<Event>, last: Event)
    ensures (forall i :: 0 <= i < |front| + 1 ==> FlushesNothing(front + [last], i)) <==>
            (forall i :: 0 <= i < |front| ==> FlushesNothing(front, i)) &&
            (last == Flush(false) ==> Exec(EMPTY, front).buffer == [])
  {
    hide Exec;
    var es := front + [last];
    forall i | 0 <= i < |front| ensures FlushesNothing(es, i) == FlushesNothing(front, i) {
      assert es[..i] == front[..i] && es[i] == front[i];
    }
    assert es[..|front|] == front && es[|front|] == last;
    assert FlushesNothing(es, |front|) <==> (last == Flush(false) ==> Exec(EMPTY, front).buffer == []);
    hide FlushesNothing;
    assert (forall i :: 0 <= i < |es| ==> FlushesNothing(es, i)) ==>
           forall i :: 0 <= i < |front| ==> FlushesNothing(front, i) by {
      assert forall i :: 0 <= i < |front| ==> FlushesNothing(es, i) == FlushesNothing(front, i);
    }
  }

  /** Records are lost exactly when some failed flush met a buffer that was not empty. */
  lemma {:induction false} LostExactly(es: seq<Event>)
    ensures Exec(EMPTY, es).lost == [] <==> forall i :: 0 <= i < |es| ==> FlushesNothing(es, i)
  {
    hide Step, FlushesNothing;
    if es != [] {
      var front, last := es[..|es| - 1], es[|es| - 1];
      assert es == front + [last];
      LostExactly(front);
      FlushesSnoc(front, last);
      LosesExactly(Exec(EMPTY, front), last);
    }
  }

  lemma LosesExactly(s: State, e: Event)
    ensures Step(s, e).lost == [] <==> s.lost == [] && (e == Flush(false) ==> s.buffer == [])
  {
    hide CacheKey, UpsertAll, AddPoint, PointOf;
  }

  lemma {:induction false} KeptAndLost(s: State, k: Key)
    ensures Held(s, k) == Plus(SumFor(s.lost, k), Kept(s, k))
  {
    hide SumFor, CachedSum, Plus;
  }

  /**
   From the empty state, cache, channel, buffer and table hold all points added, for every endpoint,
   instance and hour, exactly when no failed flush ever met a buffer with records in it.
   */
  lemma {:induction false} NothingMissingExactly(es: seq<Event>)
    ensures (forall k :: Kept(Exec(EMPTY, es), k) == SumFor(Points(es), k)) <==>
            forall i :: 0 <= i < |es| ==> FlushesNothing(es, i)
  {
    hide Exec, Kept, Held, Points, FlushesNothing;
    var s := Exec(EMPTY, es);
    LostExactly(es);
    RunSampled(es);
    forall k ensures Plus(SumFor(s.lost, k), Kept(s, k)) == SumFor(Points(es), k) {
      EmptyConserves(es, k);
      KeptAndLost(s, k);
    }
    if s.lost == [] {
      forall k ensures Kept(s, k) == SumFor(Points(es), k) {
        ForNone(k);
      }
    } else {
      var k := s.lost[0].key;
      SamplesCount(s.lost, k);
      hide SumFor;
      assert Kept(s, k).samples < SumFor(Points(es), k).samples;
    }
  }

  predicate Mentions(rs: seq<Record>, k: Key) {
    exists i :: 0 <= i < |rs| && rs[i].key == k
  }

  lemma {:induction false} SumIsZeroExactly(rs: seq<Record>, k: Key)
    requires Sampled(rs)
    ensures SumFor(rs, k).samples >= 0
    ensures SumFor(rs, k) == ZERO <==> !Mentions(rs, k)
  {
    if rs != [] {
      var front, last := rs[..|rs| - 1], rs[|rs| - 1];
      assert rs == front + [last] && last in rs;
      SumIsZeroExactly(front, k);
      MentionsSnoc(front, last, k);
    }
  }

  lemma MentionsSnoc(front: seq<Record>, last: Record, k: Key)
    ensures Mentions(front + [last], k) <==> Mentions(front, k) || last.key == k
  {
    var rs := front + [last];
    if Mentions(front, k) {
      var i :| 0 <= i < |front| && front[i].key == k;
      assert rs[i].key == k;
    }
    assert rs[|front|] == last;
  }

  lemma MentionsConcat(xs: seq<Record>, ys: seq<Record>, k: Key)
    ensures Mentions(xs + ys, k) <==> Mentions(xs, k) || Mentions(ys, k)
  {
    var rs := xs + ys;
    if Mentions(xs, k) {
      var i :| 0 <= i < |xs| && xs[i].key == k;
      assert rs[i].key == k;
    }
    if Mentions(ys, k) {
      var i :| 0 <= i < |ys| && ys[i].key == k;
      assert rs[|xs| + i].key == k;
    }
  }

  lemma LosesKeyExactly(s: State, e: Event, k: Key)
    ensures Mentions(Step(s, e).lost, k) <==> Mentions(s.lost, k) || (e == Flush(false) && Mentions(s.buffer, k))
  {
    hide CacheKey, UpsertAll, AddPoint, PointOf;
    MentionsConcat(s.lost, s.buffer, k);
    hide Mentions;
    assert s.lost + [] == s.lost;
  }

  /** Event number i is not a failed flush of a record of the key. */
  predicate FlushesOthers(es: seq<Event>, i: nat, k: Key)
    requires i < |es|
  {
    es[i] == Flush(false) ==> !Mentions(Exec(EMPTY, es[..i]).buffer, k)
  }

  lemma {:induction false} FlushesOthersSnoc(front: seq<Event>, last: Event, k: Key)
    ensures (forall i :: 0 <= i < |front| + 1 ==> FlushesOthers(front + [last], i, k)) <==>
            (forall i :: 0 <= i < |front| ==> FlushesOthers(front, i, k)) &&
            (last == Flush(false) ==> !Mentions(Exec(EMPTY, front).buffer, k))
  {
    hide Exec, Mentions;
    var es := front + [last];
    forall i | 0 <= i < |front| ensures FlushesOthers(es, i, k) == FlushesOthers(front, i, k) {
      assert es[..i] == front[..i] && es[i] == front[i];
    }
    assert es[..|front|] == front && es[|front|] == last;
    assert FlushesOthers(es, |front|, k) <==> (last == Flush(false) ==> !Mentions(Exec(EMPTY, front).buffer, k));
    hide FlushesOthers;
    assert (forall i :: 0 <= i < |es| ==> FlushesOthers(es, i, k)) ==>
           forall i :: 0 <= i < |front| ==> FlushesOthers(front, i, k) by {
      assert forall i :: 0 <= i < |front| ==> FlushesOthers(es, i, k) == FlushesOthers(front, i, k);
    }
  }

  lemma {:induction false} LostKeyExactly(es: seq<Event>, k: Key)
    ensures !Mentions(Exec(EMPTY, es).lost, k) <==> forall i :: 0 <= i < |es| ==> FlushesOthers(es, i, k)
  {
    if es == [] {
      hide Step, FlushesOthers;
    } else {
      hide Step, Mentions, FlushesOthers;
      var front, last := es[..|es| - 1], es[|es| - 1];
      assert es == front + [last];
      LostKeyExactly(front, k);
      FlushesOthersSnoc(front, last, k);
      LosesKeyExactly(Exec(EMPTY, front), last, k);
    }
  }

  /**
   For one endpoint, instance and hour: cache, channel, buffer and table hold all its points exactly
   when no failed flush met a record of it.
   */
  lemma {:induction false} KeyIsWholeExactly(es: seq<Event>, k: Key)
    ensures Kept(Exec(EMPTY, es), k) == SumFor(Points(es), k) <==>
            forall i :: 0 <= i < |es| ==> FlushesOthers(es, i, k)
  {
    hide Exec, Kept, Held, Points, SumFor, Mentions, FlushesOthers;
    var s := Exec(EMPTY, es);
    LostKeyExactly(es, k);
    RunSampled(es);
    EmptyConserves(es, k);
    KeptAndLost(s, k);
    SumIsZeroExactly(s.lost, k);
  }

  // ------------------------------------------------ when the newest totals are right

  /** The newest totals of a key in cache and channel. */
  function Upstream(s: State, k: Key): Option<Totals> {
    Later(CachedLast(s.cache, k), LastFor(s.queue, k))
  }

  /** Those not yet in the table. */
  function Waiting(s: State, k: Key): Option<Totals> {
    Later(Upstream(s, k), LastFor(s.buffer, k))
  }

  predicate Adds(e: Event, k: Key) {
    e.Add? && PointOf(e).key == k
  }

  /** A failed flush that takes the newest record of a key with it. */
  predicate DropsNewest(s: State, e: Event, k: Key) {
    e == Flush(false) && Upstream(s, k) == None && LastFor(s.buffer, k).Some?
  }

  lemma StepWaiting(s: State, e: Event, k: Key)
    requires Inv(s)
    ensures Adds(e, k) ==> Newest(Step(s, e), k) == Some(e.totals)
    ensures !Adds(e, k) && Waiting(s, k) == None ==> Waiting(Step(s, e), k) == None
    ensures DropsNewest(s, e, k) ==> Waiting(Step(s, e), k) == None
    ensures !Adds(e, k) && !DropsNewest(s, e, k) ==> Newest(Step(s, e), k) == Newest(s, k)
  {
    hide SumFor, LastFor, UniqueKeys, CacheKey, Plus, CachedLast;
    ForNone(k);
    match e
    case Add(_, _, _, _, _) => AddCounts(s.cache, PointOf(e), k);
    case Move(ck) => MoveCounts(s, ck, k);
    case Receive => ReceiveCounts(s, k);
    case Flush(committed) =>
      if s.buffer != [] {
        UpsertAllMeans(s.rows, s.buffer, k);
      }
      hide UpsertAll;
  }

  /** Some failed flush took the newest record of the key with it, and no point of it was added since. */
  ghost predicate LostNewest(es: seq<Event>, k: Key) {
    exists i :: 0 <= i < |es| && LostNewestAt(es, i, k)
  }

  ghost predicate LostNewestAt(es: seq<Event>, i: nat, k: Key)
    requires i < |es|
  {
    DropsNewest(Exec(EMPTY, es[..i]), es[i], k) && forall j :: i < j < |es| ==> !Adds(es[j], k)
  }

  lemma {:induction false} LostNewestSnoc(front: seq<Event>, last: Event, k: Key)
    ensures LostNewest(front + [last], k) <==>
            DropsNewest(Exec(EMPTY, front), last, k) || (LostNewest(front, k) && !Adds(last, k))
  {
    hide Exec, DropsNewest, Adds;
    var es := front + [last];
    assert es[..|front|] == front && es[|front|] == last;
    forall i | 0 <= i < |front| ensures LostNewestAt(es, i, k) <==> LostNewestAt(front, i, k) && !Adds(last, k) {
      assert es[..i] == front[..i] && es[i] == front[i];
      assert forall j :: i < j < |front| ==> es[j] == front[j];
    }
    assert LostNewestAt(es, |front|, k) <==> DropsNewest(Exec(EMPTY, front), last, k);
    if LostNewest(es, k) {
      var i :| 0 <= i < |es| && LostNewestAt(es, i, k);
      assert i < |front| ==> LostNewestAt(front, i, k);
    }
    if LostNewest(front, k) && !Adds(last, k) {
      var i :| 0 <= i < |front| && LostNewestAt(front, i, k);
      assert LostNewestAt(es, i, k);
    }
  }

  lemma {:induction false} NewestRun(es: seq<Event>, k: Key)
    ensures LostNewest(es, k) ==> Waiting(Exec(EMPTY, es), k) == None
    ensures !LostNewest(es, k) ==> Newest(Exec(EMPTY, es), k) == LastFor(Points(es), k)
  {
    if es == [] {
      hide LastFor;
      NothingNewest(k);
    } else {
      hide Step, Newest, LastFor, Waiting, DropsNewest, Adds, LostNewest, Points, Exec, Inv;
      var front, last := es[..|es| - 1], es[|es| - 1];
      assert es == front + [last];
      var s := Exec(EMPTY, front);
      NewestRun(front, k);
      EmptyConserves(front, k);
      ExecSnoc(EMPTY, front, last);
      LostNewestSnoc(front, last, k);
      StepWaiting(s, last, k);
      PointsSnoc(front, last, k);
      DropAddsNothing(s, last, k);
    }
  }

  lemma {:induction false} PointsSnoc(front: seq<Event>, last: Event, k: Key)
    ensures LastFor(Points(front + [last]), k) == if Adds(last, k) then Some(last.totals) else LastFor(Points(front), k)
  {
    hide LastFor;
    assert (front + [last])[..|front|] == front;
    PointsStep(front + [last], k);
  }

  lemma DropAddsNothing(s: State, e: Event, k: Key)
    ensures DropsNewest(s, e, k) ==> !Adds(e, k)
  {
    hide LastFor, Upstream;
  }

  lemma {:induction false} NothingNewest(k: Key)
    ensures Newest(EMPTY, k) == None && LastFor(Points([]), k) == None
  {
  }

  /**
   For one endpoint, instance and hour: the newest stage holding it carries the totals of its last
   point, unless a failed flush took its newest record with it and no point was added since; then the
   table alone is left, and carries them exactly when it had the same totals before.
   */
  lemma {:induction false} NewestIsLatestExactly(es: seq<Event>, k: Key)
    ensures Newest(Exec(EMPTY, es), k) ==
            if LostNewest(es, k) then LastFor(Exec(EMPTY, es).rows, k) else LastFor(Points(es), k)
    ensures LostNewest(es, k) ==> Upstream(Exec(EMPTY, es), k) == None && LastFor(Exec(EMPTY, es).buffer, k) == None
  {
    hide Exec, LastFor, CachedLast, LostNewest, Points;
    NewestRun(es, k);
  }

  /** Conservation from the empty state: the stages and the failed batches hold exactly the points added. */
  lemma {:induction false} EmptyConserves(es: seq<Event>, k: Key)
    ensures Inv(Exec(EMPTY, es)) && Held(Exec(EMPTY, es), k) == SumFor(Points(es), k)
  {
    hide Exec, Points;
    Conservation(EMPTY, es, k);
    PlusLaws(ZERO, SumFor(Points(es), k), ZERO);
  }

  /** A point that is cached, moved and received, and then part of a batch that fails. */
  function LosingRun(add: Event): seq<Event>
    requires add.Add?
  {
    [add] + [Move(CacheKey(PointOf(add).key))] + [Receive] + [Flush(false)]
  }

  lemma LosingRunEnds(add: Event)
    requires add.Add?
    ensures Exec(EMPTY, LosingRun(add)) == EMPTY.(lost := [PointOf(add)])
  {
    hide CacheKey, PointOf;
    var p := PointOf(add);
    var move := Move(CacheKey(p.key));
    ExecSnoc(EMPTY, [], add);
    ExecSnoc(EMPTY, [add], move);
    ExecSnoc(EMPTY, [add] + [move], Receive);
    ExecSnoc(EMPTY, [add] + [move] + [Receive], Flush(false));
    assert [] + [add] == [add] && Exec(EMPTY, []) == EMPTY;
    hide Exec;
    var cached := Step(EMPTY, add);
    assert cached == EMPTY.(cache := map[CacheKey(p.key) := p]);
    assert map[CacheKey(p.key) := p] - {CacheKey(p.key)} == map[] && [] + [p] == [p];
    var moved := Step(cached, move);
    assert moved == EMPTY.(queue := [p]);
    assert Step(moved, Receive) == EMPTY.(buffer := [p]);
  }

  /** Four steps from the empty state lose a point for good. */
  lemma FailedBatchLosesPoints(add: Event)
    requires add.Add?
    ensures var s, k := Exec(EMPTY, LosingRun(add)), PointOf(add).key;
            && Kept(s, k) == ZERO && Newest(s, k) == None
            && SumFor(Points(LosingRun(add)), k) == add.delta.(samples := 1)
  {
    hide Exec, Points, LosingRun, CacheKey;
    var p := PointOf(add);
    LosingRunEnds(add);
    EmptyConserves(LosingRun(add), p.key);
    LostAlone(p);
    hide Kept, Newest, Held, SumFor;
  }

  lemma LostAlone(p: Record)
    ensures var s := EMPTY.(lost := [p]);
            Kept(s, p.key) == ZERO && Newest(s, p.key) == None && Held(s, p.key) == p.delta
  {
    hide SumFor, LastFor, CacheKey;
    OneRecord(p, p.key);
    ForNone(p.key);
  }

  lemma {:induction false} ExecSnoc(s: State, es: seq<Event>, e: Event)
    ensures Exec(s, es + [e]) == Step(Exec(s, es), e)
  {
    assert (es + [e])[..|es|] == es;
  }

  /** The bounded channel never holds more than its capacity. */
  lemma {:induction false} ChannelWithinCapacity(s: State, es: seq<Event>)
    requires |s.queue| <= CHANNEL_CAPACITY
    ensures |Exec(s, es).queue| <= CHANNEL_CAPACITY
  {
    hide CacheKey, UpsertAll, AddPoint, PointOf;
    if es != [] {
      ChannelWithinCapacity(s, es[..|es| - 1]);
    }
  }

  // ------------------------------------------------------ what one operation does

  /** The point's key has gained its increments and one sample, and carries its totals; other keys are as they were. */
  ghost predicate Merged(before: map<string, Record>, after: map<string, Record>, p: Record) {
    forall k :: MergedAt(before, after, p, k)
  }

  predicate MergedAt(before: map<string, Record>, after: map<string, Record>, p: Record, k: Key) {
    && CachedSum(after, k) == (if k == p.key then Plus(CachedSum(before, k), p.delta) else CachedSum(before, k))
    && CachedLast(after, k) == (if k == p.key then Some(p.totals) else CachedLast(before, k))
  }

  lemma AddMerges(cache: map<string, Record>, p: Record)
    requires OwnKeys(cache)
    ensures Merged(cache, AddPoint(cache, p), p) && OwnKeys(AddPoint(cache, p))
  {
    hide AddPoint, CachedSum, CachedLast, OwnKeys;
    forall k ensures MergedAt(cache, AddPoint(cache, p), p, k) {
      AddCounts(cache, p, k);
    }
    AddCounts(cache, p, p.key);
  }

  /** Every key of the table has gained the batch's increments and carries its latest totals; each has one row still. */
  ghost predicate Gained(before: seq<Record>, batch: seq<Record>, after: seq<Record>) {
    UniqueKeys(after) && forall k :: GainedAt(before, batch, after, k)
  }

  predicate GainedAt(before: seq<Record>, batch: seq<Record>, after: seq<Record>, k: Key) {
    && SumFor(after, k) == Plus(SumFor(before, k), SumFor(batch, k))
    && LastFor(after, k) == Later(LastFor(batch, k), LastFor(before, k))
  }

  lemma {:induction false} UpsertGains(rows: seq<Record>, batch: seq<Record>)
    requires UniqueKeys(rows)
    ensures Gained(rows, batch, UpsertAll(rows, batch))
    ensures Gained(rows, [], rows)
  {
    hide UpsertAll, SumFor, LastFor, UniqueKeys, Plus;
    forall k ensures GainedAt(rows, batch, UpsertAll(rows, batch), k) && GainedAt(rows, [], rows, k) {
      UpsertAllMeans(rows, batch, k);
      ForNone(k);
      PlusLaws(SumFor(rows, k), ZERO, ZERO);
    }
    UpsertAllMeans(rows, batch, Key(0, "", 0));
  }

  // -------------------------------------------------------- everything gets through

  lemma {:induction false} ExecConcat(s: State, es: seq<Event>, fs: seq<Event>)
    ensures Exec(s, es + fs) == Exec(Exec(s, es), fs)
  {
    hide Step;
    if fs == [] {
      assert es + fs == es;
    } else {
      ExecConcat(s, es, fs[..|fs| - 1]);
      assert (es + fs)[..|es + fs| - 1] == es + fs[..|fs| - 1];
    }
  }

  function Moves(order: seq<string>): seq<Event> {
    seq(|order|, i requires 0 <= i < |order| => Move(order[i]))
  }

  function Receives(n: nat): seq<Event> {
    seq(n, _ => Receive)
  }

  /** The keys of the cache, each once. */
  predicate IsKeysOf(order: seq<string>, cache: map<string, Record>) {
    && (forall ck :: ck in order ==> ck in cache)
    && (forall ck :: ck in cache ==> ck in order)
    && (forall i, j :: 0 <= i < j < |order| ==> order[i] != order[j])
  }

  /** The first n keys of an order have moved, and nothing else has changed. */
  ghost predicate MovedFirst(s: State, t: State, order: seq<string>, n: nat)
    requires n <= |order| && forall ck :: ck in order ==> ck in s.cache
  {
    && t.buffer == s.buffer && t.rows == s.rows && t.lost == s.lost
    && |t.queue| == |s.queue| + n && t.queue[..|s.queue|] == s.queue
    && (forall i :: 0 <= i < n ==> order[i] in order && t.queue[|s.queue| + i] == s.cache[order[i]])
    && (forall ck :: ck in t.cache <==> ck in s.cache && ck !in order[..n])
    && (forall ck :: ck in t.cache ==> t.cache[ck] == s.cache[ck])
  }

  /** How many of n records a channel of this length takes. */
  function Room(queued: nat, n: nat): nat {
    if queued + n <= CHANNEL_CAPACITY then n else if queued <= CHANNEL_CAPACITY then CHANNEL_CAPACITY - queued else 0
  }

  lemma MoveOnce(s: State, t: State, order: seq<string>, n: nat)
    requires n < |order| && (forall ck :: ck in order ==> ck in s.cache)
    requires forall i, j :: 0 <= i < j < |order| ==> order[i] != order[j]
    requires MovedFirst(s, t, order, n) && |t.queue| < CHANNEL_CAPACITY
    ensures MovedFirst(s, MoveRecord(t, order[n]), order, n + 1)
  {
    var ck, u := order[n], MoveRecord(t, order[n]);
    assert ck in order && order[..n + 1] == order[..n] + [ck];
    assert ck !in order[..n];
    assert u.queue[..|s.queue|] == t.queue[..|s.queue|];
  }

  lemma MoveRefused(t: State, ck: string)
    requires |t.queue| >= CHANNEL_CAPACITY
    ensures MoveRecord(t, ck) == t
  {
  }

  /** A series of moves takes the first records for which there is room, and leaves the others in the cache. */
  lemma {:induction false} MovesMean(s: State, order: seq<string>, n: nat)
    requires n <= |order| && (forall ck :: ck in order ==> ck in s.cache)
    requires forall i, j :: 0 <= i < j < |order| ==> order[i] != order[j]
    ensures MovedFirst(s, Exec(s, Moves(order[..n])), order, Room(|s.queue|, n))
  {
    if n == 0 {
      assert Moves(order[..0]) == [];
    } else {
      MovesMean(s, order, n - 1);
      assert Moves(order[..n]) == Moves(order[..n - 1]) + [Move(order[n - 1])];
      ExecSnoc(s, Moves(order[..n - 1]), Move(order[n - 1]));
      var t := Exec(s, Moves(order[..n - 1]));
      hide Exec, Moves, MoveRecord;
      if Room(|s.queue|, n) == n {
        MoveOnce(s, t, order, n - 1);
      } else {
        MoveRefused(t, order[n - 1]);
      }
      hide MovedFirst;
    }
  }

  lemma {:induction false} ReceivesTake(s: State, n: nat)
    requires n <= |s.queue|
    ensures var t := Exec(s, Receives(n));
            t == s.(queue := s.queue[n..], buffer := s.buffer + s.queue[..n])
  {
    if n == 0 {
      assert s.queue[0..] == s.queue && s.buffer + s.queue[..0] == s.buffer;
    } else {
      ReceivesTake(s, n - 1);
      assert Receives(n) == Receives(n - 1) + [Receive];
      ExecSnoc(s, Receives(n - 1), Receive);
      hide Exec, Receives;
      assert s.queue[n - 1..][1..] == s.queue[n..] && s.queue[..n] == s.queue[..n - 1] + [s.queue[n - 1]];
    }
  }

  /** Every cached record moves, every queued one is received, and one flush commits. */
  function DrainOf(order: seq<string>, n: nat): seq<Event> {
    Moves(order) + Receives(n) + [Flush(true)]
  }

  lemma DrainEmpties(s: State, order: seq<string>)
    requires IsKeysOf(order, s.cache) && |s.queue| + |order| <= CHANNEL_CAPACITY
    ensures var t := Exec(s, DrainOf(order, |s.queue| + |order|));
            t.cache == map[] && t.queue == [] && t.buffer == [] && t.lost == s.lost
  {
    hide Exec, Moves, Receives;
    var n := |s.queue| + |order|;
    MovesMean(s, order, |order|);
    assert order[..|order|] == order;
    var u := Exec(s, Moves(order));
    assert u.cache == map[] by {
      assert forall ck :: ck !in u.cache;
    }
    ReceivesTake(u, n);
    ExecConcat(s, Moves(order), Receives(n));
    ExecSnoc(s, Moves(order) + Receives(n), Flush(true));
    hide UpsertAll;
  }

  lemma {:induction false} NoPoints(es: seq<Event>, k: Key)
    requires forall e :: e in es ==> !e.Add?
    ensures Points(es) == []
  {
    if es != [] {
      assert es[|es| - 1] in es;
      NoPoints(es[..|es| - 1], k);
    }
  }

  lemma DrainAddsNone(order: seq<string>, n: nat)
    ensures forall e :: e in DrainOf(order, n) ==> !e.Add?
  {
    assert forall e :: e in Moves(order) ==> e.Move?;
    assert forall e :: e in Receives(n) ==> e.Receive?;
  }

  /**
   From every state with room in the channel: once each cached record has moved, each queued one has been
   received and one flush has committed, the table alone holds everything, sums and latest totals alike.
   */
  lemma {:induction false} DrainFillsTable(s: State, order: seq<string>, k: Key)
    requires Inv(s) && IsKeysOf(order, s.cache) && |s.queue| + |order| <= CHANNEL_CAPACITY
    ensures var t := Exec(s, DrainOf(order, |s.queue| + |order|));
            && t.cache == map[] && t.queue == [] && t.buffer == [] && t.lost == s.lost
            && SumFor(t.rows, k) == Kept(s, k)
            && (LastFor(s.lost, k) == None ==> LastFor(t.rows, k) == Newest(s, k))
  {
    hide Exec, Points, DrainOf;
    var es := DrainOf(order, |s.queue| + |order|);
    var t := Exec(s, es);
    DrainEmpties(s, order);
    DrainAddsNone(order, |s.queue| + |order|);
    NoPoints(es, k);
    Conservation(s, es, k);
    if LastFor(s.lost, k) == None {
      NewestIsLatest(s, es, k);
    }
    ForNone(k);
    KeptAndLost(s, k);
    KeptAndLost(t, k);
    assert Kept(t, k) == SumFor(t.rows, k) by { KeptOfTable(t, k); }
    assert Newest(t, k) == LastFor(t.rows, k);
    hide Held, Kept, SumFor, LastFor, Newest, Inv;
    PlusLaws(Held(s, k), ZERO, ZERO);
    SameRest(SumFor(s.lost, k), Kept(s, k), SumFor(t.rows, k));
  }

  lemma {:induction false} KeptOfTable(t: State, k: Key)
    requires t.cache == map[] && t.queue == [] && t.buffer == []
    ensures Kept(t, k) == SumFor(t.rows, k)
  {
    PlusLaws(SumFor(t.rows, k), ZERO, ZERO);
    ForNone(k);
    hide SumFor;
  }

  lemma SameRest(a: Delta, b: Delta, c: Delta)
    requires Plus(a, b) == Plus(a, c)
    ensures b == c
  {
  }

  /** So do the points of every run whose failed flushes met no record of the key. */
  lemma {:induction false} PointsReachTable(es: seq<Event>, order: seq<string>, k: Key)
    requires var s := Exec(EMPTY, es); IsKeysOf(order, s.cache) && |s.queue| + |order| <= CHANNEL_CAPACITY
    requires forall i :: 0 <= i < |es| ==> FlushesOthers(es, i, k)
    ensures var t := Exec(Exec(EMPTY, es), DrainOf(order, |Exec(EMPTY, es).queue| + |order|));
            && t.cache == map[] && t.queue == [] && t.buffer == []
            && SumFor(t.rows, k) == SumFor(Points(es), k) && LastFor(t.rows, k) == LastFor(Points(es), k)
  {
    hide Exec, Points, DrainOf, FlushesOthers, Kept, Newest, Mentions, SumFor, LastFor, Inv, Held, IsKeysOf;
    var s := Exec(EMPTY, es);
    EmptyIsOrdered();
    EmptyConserves(es, k);
    KeyIsWholeExactly(es, k);
    LostKeyExactly(es, k);
    UnmentionedHasNone(s.lost, k);
    NewestIsLatest(EMPTY, es, k);
    DrainFillsTable(s, order, k);
    NothingNewest(k);
  }

  lemma EmptyIsOrdered()
    ensures Inv(EMPTY)
  {
  }

  lemma {:induction false} UnmentionedHasNone(rs: seq<Record>, k: Key)
    requires !Mentions(rs, k)
    ensures LastFor(rs, k) == None
  {
    if rs != [] {
      var front, last := rs[..|rs| - 1], rs[|rs| - 1];
      assert rs == front + [last];
      MentionsSnoc(front, last, k);
      UnmentionedHasNone(front, k);
    }
  }
}
