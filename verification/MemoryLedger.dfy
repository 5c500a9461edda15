/**
 The in-memory endpoint state: a traffic snapshot that turns absolute readings into accumulated
 deltas, and statistics recomputed from the tunnel map.
 */
module MemoryLedger {
  import opened Tunnels
  import opened Wrappers

  datatype Counter = TcpRx | TcpTx | UdpRx | UdpTx

  function Get(c: Counters, w: Counter): int {
    match w
    case TcpRx => c.tcpRx
    case TcpTx => c.tcpTx
    case UdpRx => c.udpRx
    case UdpTx => c.udpTx
  }

  const NOTHING := Counters(0, 0, 0, 0)

  datatype Snapshot = Snapshot(last: Counters, delta: Counters)

  /** A negative difference means the counter restarted: the current reading is what it gained. */
  function Gain(last: int, current: int): int {
    if current - last < 0 then current else current - last
  }

  /** `CalculateTrafficDelta` for an endpoint that exists; without a snapshot the reading only starts one. */
  function Feed(s: Option<Snapshot>, current: Counters): Snapshot {
    match s
    case None => Snapshot(current, NOTHING)
    case Some(p) =>
      Snapshot(current, Counters(p.delta.tcpRx + Gain(p.last.tcpRx, current.tcpRx),
                                 p.delta.tcpTx + Gain(p.last.tcpTx, current.tcpTx),
                                 p.delta.udpRx + Gain(p.last.udpRx, current.udpRx),
                                 p.delta.udpTx + Gain(p.last.udpTx, current.udpTx)))
  }

  function FeedAll(s: Snapshot, readings: seq<Counters>): Snapshot {
    if readings == [] then s else Feed(Some(FeedAll(s, readings[..|readings| - 1])), readings[|readings| - 1])
  }

  // ------------------------------------------------------------------ ledger

  /** The reading before position i; before the first it is the snapshot's. */
  function Before(s: Snapshot, readings: seq<Counters>, i: nat, w: Counter): int
    requires i < |readings|
  {
    if i == 0 then Get(s.last, w) else Get(readings[i - 1], w)
  }

  predicate IsReset(s: Snapshot, readings: seq<Counters>, i: nat, w: Counter)
    requires i < |readings|
  {
    Get(readings[i], w) < Before(s, readings, i, w)
  }

  /** The readings that stood just before a reset among the first n readings, summed. */
  function LostToResets(s: Snapshot, readings: seq<Counters>, n: nat, w: Counter): int
    requires n <= |readings|
  {
    if n == 0 then 0
    else LostToResets(s, readings, n - 1, w) +
         (if IsReset(s, readings, n - 1, w) then Before(s, readings, n - 1, w) else 0)
  }

  function FinalReading(s: Snapshot, readings: seq<Counters>, w: Counter): int {
    if readings == [] then Get(s.last, w) else Get(readings[|readings| - 1], w)
  }

  lemma {:induction false} LostOfPrefix(s: Snapshot, readings: seq<Counters>, front: seq<Counters>, n: nat, w: Counter)
    requires n <= |front| <= |readings| && front == readings[..|front|]
    ensures LostToResets(s, front, n, w) == LostToResets(s, readings, n, w)
  {
    if n > 0 {
      LostOfPrefix(s, readings, front, n - 1, w);
    }
  }

  /**
   The ledger: after any readings, what was accumulated plus the reading it started from is the final
   reading plus every reading that stood just before a reset.
   */
  lemma {:induction false} Ledger(s: Snapshot, readings: seq<Counters>, w: Counter)
    ensures Get(FeedAll(s, readings).last, w) == FinalReading(s, readings, w)
    ensures Get(FeedAll(s, readings).delta, w) - Get(s.delta, w) + Get(s.last, w) ==
            FinalReading(s, readings, w) + LostToResets(s, readings, |readings|, w)
  {
    if readings != [] {
      var n := |readings| - 1;
      Ledger(s, readings[..n], w);
      LostOfPrefix(s, readings, readings[..n], n, w);
    }
  }

  /** Without a snapshot the first reading counts for nothing, and the ledger starts from it. */
  lemma {:induction false} UnstartedLedger(first: Counters, readings: seq<Counters>, w: Counter)
    ensures var s := FeedAll(Feed(None, first), readings);
            Get(s.delta, w) + Get(first, w) ==
            (if readings == [] then Get(first, w) else Get(readings[|readings| - 1], w)) +
            LostToResets(Snapshot(first, NOTHING), readings, |readings|, w)
  {
    Ledger(Snapshot(first, NOTHING), readings, w);
    hide LostToResets, FeedAll;
  }

  ghost predicate NonNegative(readings: seq<Counters>, w: Counter) {
    forall i :: 0 <= i < |readings| ==> Get(readings[i], w) >= 0
  }

  /** With non-negative readings the accumulated delta never falls. */
  lemma {:induction false} DeltaNeverFalls(s: Snapshot, readings: seq<Counters>, n: nat, w: Counter)
    requires NonNegative(readings, w) && n <= |readings|
    ensures Get(FeedAll(s, readings[..n]).delta, w) <= Get(FeedAll(s, readings).delta, w)
  {
    var k := |readings|;
    if n < k {
      assert readings[..k - 1][..n] == readings[..n];
      DeltaNeverFalls(s, readings[..k - 1], n, w);
      assert Get(readings[k - 1], w) >= 0;
    } else {
      assert readings[..n] == readings;
    }
  }

  lemma {:induction false} LostIsPositive(s: Snapshot, readings: seq<Counters>, n: nat, w: Counter)
    requires NonNegative(readings, w) && n <= |readings|
    ensures LostToResets(s, readings, n, w) >= 0
    ensures LostToResets(s, readings, n, w) == 0 <==> forall i :: 0 <= i < n ==> !IsReset(s, readings, i, w)
  {
    if n > 0 {
      LostIsPositive(s, readings, n - 1, w);
      assert Get(readings[n - 1], w) >= 0;
    }
  }

  /** What was accumulated is final minus initial exactly when the counter was never reset, and more otherwise. */
  lemma {:induction false} DeltaIsDifferenceExactly(s: Snapshot, readings: seq<Counters>, w: Counter)
    requires NonNegative(readings, w)
    ensures var gained, change := Get(FeedAll(s, readings).delta, w) - Get(s.delta, w),
            FinalReading(s, readings, w) - Get(s.last, w);
            && gained >= change
            && (gained == change <==> forall i :: 0 <= i < |readings| ==> !IsReset(s, readings, i, w))
  {
    hide FeedAll, LostToResets, IsReset;
    Ledger(s, readings, w);
    LostIsPositive(s, readings, |readings|, w);
  }

  /** Two readings in turn, n times. */
  function Alternating(a: Counters, b: Counters, n: nat): seq<Counters> {
    if n == 0 then [] else Alternating(a, b, n - 1) + [a] + [b]
  }

  /**
   Whatever a snapshot has accumulated, two readings that come in turn add the larger one in every
   round.
   */
  lemma {:induction false} SharedSnapshotOvercounts(s: Snapshot, a: Counters, b: Counters, n: nat, w: Counter)
    requires 0 <= Get(b, w) < Get(a, w) && Get(s.last, w) == Get(b, w)
    ensures Get(FeedAll(s, Alternating(a, b, n)).delta, w) == Get(s.delta, w) + n * Get(a, w)
    ensures Get(FeedAll(s, Alternating(a, b, n)).last, w) == Get(b, w)
  {
    if n > 0 {
      var front := Alternating(a, b, n - 1);
      SharedSnapshotOvercounts(s, a, b, n - 1, w);
      assert (front + [a] + [b])[..|front| + 1] == front + [a] && (front + [a])[..|front|] == front;
      assert n * Get(a, w) == (n - 1) * Get(a, w) + Get(a, w);
      assert FeedAll(s, front + [a]) == Feed(Some(FeedAll(s, front)), a);
      assert FeedAll(s, front + [a] + [b]) == Feed(Some(FeedAll(s, front + [a])), b);
    }
  }

  // ------------------------------------------- one snapshot, several instances

  /** A reading together with the instance it was reported for, which the snapshot does not keep. */
  datatype Reading = Reading(instance: string, counters: Counters)

  const FRESH := Snapshot(NOTHING, NOTHING)

  function Plain(rs: seq<Reading>): seq<Counters> {
    seq(|rs|, i requires 0 <= i < |rs| => rs[i].counters)
  }

  /** The readings of one instance, in order. */
  function ReadingsOf(rs: seq<Reading>, instance: string): seq<Counters> {
    if rs == [] then []
    else
      var front, last := ReadingsOf(rs[..|rs| - 1], instance), rs[|rs| - 1];
      if last.instance == instance then front + [last.counters] else front
  }

  /** What the endpoint's single snapshot has accumulated since `InitEndpoint`. */
  function SharedDelta(rs: seq<Reading>, w: Counter): int {
    Get(FeedAll(FRESH, Plain(rs)).delta, w)
  }

  /** What a snapshot of its own would have accumulated for an instance. */
  function OwnDelta(rs: seq<Reading>, instance: string, w: Counter): int {
    Get(FeedAll(FRESH, ReadingsOf(rs, instance)).delta, w)
  }

  function OwnDeltas(rs: seq<Reading>, instances: seq<string>, w: Counter): int {
    if instances == [] then 0
    else OwnDeltas(rs, instances[..|instances| - 1], w) + OwnDelta(rs, instances[|instances| - 1], w)
  }

  /** The readings that the next one is compared with: the endpoint's last, and the instance's own last. */
  function SharedLast(rs: seq<Reading>, w: Counter): int {
    Get(FeedAll(FRESH, Plain(rs)).last, w)
  }

  function OwnLast(rs: seq<Reading>, instance: string, w: Counter): int {
    Get(FeedAll(FRESH, ReadingsOf(rs, instance)).last, w)
  }

  /**
   A reading gains the same against both last values exactly when they are equal, or when it looks
   like a first reading or a reset against each of them.
   */
  predicate SameGain(shared: int, own: int, current: int) {
    shared == own || ((current < shared || shared == 0) && (current < own || own == 0))
  }

  lemma GainsAgreeExactly(shared: nat, own: nat, current: nat)
    ensures Gain(shared, current) == Gain(own, current) <==> SameGain(shared, own, current)
  {
  }

  /** Reading number i gains what its own instance's snapshot would have gained. */
  predicate RightAt(rs: seq<Reading>, i: nat, w: Counter)
    requires i < |rs|
  {
    SameGain(SharedLast(rs[..i], w), OwnLast(rs[..i], rs[i].instance, w), Get(rs[i].counters, w))
  }

  ghost predicate Names(instances: seq<string>, rs: seq<Reading>) {
    && (forall i, j :: 0 <= i < j < |instances| ==> instances[i] != instances[j])
    && forall r :: r in rs ==> r.instance in instances
  }

  lemma {:induction false} FeedSnoc(s: Snapshot, readings: seq<Counters>, c: Counters, w: Counter)
    ensures Get(FeedAll(s, readings + [c]).last, w) == Get(c, w)
    ensures Get(FeedAll(s, readings + [c]).delta, w) ==
            Get(FeedAll(s, readings).delta, w) + Gain(Get(FeedAll(s, readings).last, w), Get(c, w))
  {
    assert (readings + [c])[..|readings|] == readings;
  }

  /** One more reading, seen by the shared snapshot and by each instance's own. */
  lemma ReadingSnoc(front: seq<Reading>, r: Reading, instance: string, w: Counter)
    ensures SharedDelta(front + [r], w) == SharedDelta(front, w) + Gain(SharedLast(front, w), Get(r.counters, w))
    ensures OwnDelta(front + [r], instance, w) == OwnDelta(front, instance, w) +
            if r.instance == instance then Gain(OwnLast(front, instance, w), Get(r.counters, w)) else 0
  {
    assert Plain(front + [r]) == Plain(front) + [r.counters];
    assert (front + [r])[..|front|] == front;
    hide FeedAll;
    FeedSnoc(FRESH, Plain(front), r.counters, w);
    FeedSnoc(FRESH, ReadingsOf(front, instance), r.counters, w);
  }

  lemma {:induction false} OwnSnoc(front: seq<Reading>, r: Reading, instances: seq<string>, w: Counter)
    requires forall i, j :: 0 <= i < j < |instances| ==> instances[i] != instances[j]
    ensures OwnDeltas(front + [r], instances, w) == OwnDeltas(front, instances, w) +
            if r.instance in instances then Gain(OwnLast(front, r.instance, w), Get(r.counters, w)) else 0
  {
    if instances != [] {
      hide OwnDelta, OwnLast;
      var n := |instances| - 1;
      assert instances == instances[..n] + [instances[n]];
      OwnSnoc(front, r, instances[..n], w);
      ReadingSnoc(front, r, instances[n], w);
    }
  }

  lemma {:induction false} LastsNonNegative(rs: seq<Reading>, instance: string, w: Counter)
    requires forall r :: r in rs ==> Get(r.counters, w) >= 0
    ensures SharedLast(rs, w) >= 0 && OwnLast(rs, instance, w) >= 0
  {
    if rs != [] {
      var n := |rs| - 1;
      assert forall r :: r in rs[..n] ==> r in rs;
      LastsNonNegative(rs[..n], instance, w);
      assert Plain(rs) == Plain(rs[..n]) + [rs[n].counters];
      FeedSnoc(FRESH, Plain(rs[..n]), rs[n].counters, w);
      FeedSnoc(FRESH, ReadingsOf(rs[..n], instance), rs[n].counters, w);
    }
  }

  lemma {:induction false} NothingOwned(instances: seq<string>, w: Counter)
    ensures OwnDeltas([], instances, w) == 0 && SharedDelta([], w) == 0
  {
    if instances != [] {
      NothingOwned(instances[..|instances| - 1], w);
    }
  }

  /** One reading keeps the shared delta right exactly when it gains the same against both last values. */
  lemma {:induction false} RightStep(rs: seq<Reading>, n: nat, instances: seq<string>, w: Counter)
    requires n < |rs| && Names(instances, rs) && forall r :: r in rs ==> Get(r.counters, w) >= 0
    requires SharedDelta(rs[..n], w) == OwnDeltas(rs[..n], instances, w)
    ensures SharedDelta(rs[..n + 1], w) == OwnDeltas(rs[..n + 1], instances, w) <==> RightAt(rs, n, w)
  {
    hide SharedDelta, OwnDelta, OwnDeltas, SharedLast, OwnLast;
    var front, r := rs[..n], rs[n];
    assert rs[..n + 1] == front + [r] && r in rs;
    forall x | x in front ensures x in rs {
    }
    LastsNonNegative(front, r.instance, w);
    ReadingSnoc(front, r, r.instance, w);
    OwnSnoc(front, r, instances, w);
    GainsAgreeExactly(SharedLast(front, w), OwnLast(front, r.instance, w), Get(r.counters, w));
  }

  /**
   For non-negative readings the endpoint's delta is the sum of its instances' own deltas at every
   point of a run exactly when every reading meets equal last values, or looks like a first reading or
   a reset against both.
   */
  lemma {:induction false} SharedIsSumExactly(rs: seq<Reading>, instances: seq<string>, n: nat, w: Counter)
    requires n <= |rs| && Names(instances, rs) && forall r :: r in rs ==> Get(r.counters, w) >= 0
    ensures (forall k :: 0 <= k <= n ==> SharedDelta(rs[..k], w) == OwnDeltas(rs[..k], instances, w))
            <==> (forall k :: 0 <= k < n ==> RightAt(rs, k, w))
  {
    hide SharedDelta, OwnDeltas, RightAt;
    if n == 0 {
      assert rs[..0] == [];
      NothingOwned(instances, w);
    } else {
      SharedIsSumExactly(rs, instances, n - 1, w);
      if SharedDelta(rs[..n - 1], w) == OwnDeltas(rs[..n - 1], instances, w) {
        RightStep(rs, n - 1, instances, w);
      }
    }
  }

  lemma {:induction false} OneInstanceReads(rs: seq<Reading>, instance: string)
    requires forall r :: r in rs ==> r.instance == instance
    ensures ReadingsOf(rs, instance) == Plain(rs)
  {
    if rs != [] {
      var n := |rs| - 1;
      assert rs[n] in rs;
      OneInstanceReads(rs[..n], instance);
      assert Plain(rs) == Plain(rs[..n]) + [rs[n].counters];
    }
  }

  /** With a single reporting instance the endpoint's delta is that instance's own. */
  lemma OneInstanceIsRight(rs: seq<Reading>, instance: string, w: Counter)
    requires forall r :: r in rs ==> r.instance == instance
    ensures SharedDelta(rs, w) == OwnDelta(rs, instance, w)
  {
    OneInstanceReads(rs, instance);
  }

  /** Two idle instances, reporting in turn n times after their first readings. */
  function InTurn(a: Reading, b: Reading, n: nat): seq<Reading> {
    if n == 0 then [b] else InTurn(a, b, n - 1) + [a] + [b]
  }

  /** Idle instances do accumulate: the larger reading once a round, where their own deltas stand still. */
  lemma {:induction false} IdleInstancesAccumulate(a: Reading, b: Reading, n: nat, w: Counter)
    requires a.instance != b.instance && 0 <= Get(b.counters, w) < Get(a.counters, w)
    ensures SharedDelta(InTurn(a, b, n), w) == Get(b.counters, w) + n * Get(a.counters, w)
    ensures SharedLast(InTurn(a, b, n), w) == Get(b.counters, w)
    ensures OwnDelta(InTurn(a, b, n), b.instance, w) == OwnLast(InTurn(a, b, n), b.instance, w) == Get(b.counters, w)
    ensures OwnDelta(InTurn(a, b, n), a.instance, w) == OwnLast(InTurn(a, b, n), a.instance, w) ==
            if n == 0 then 0 else Get(a.counters, w)
  {
    hide SharedDelta, SharedLast, OwnDelta, OwnLast, Get;
    if n == 0 {
      assert InTurn(a, b, 0) == [] + [b];
      Report([], b, a.instance, w);
      Report([], b, b.instance, w);
    } else {
      var front := InTurn(a, b, n - 1);
      IdleInstancesAccumulate(a, b, n - 1, w);
      Report(front, a, a.instance, w);
      Report(front, a, b.instance, w);
      Report(front + [a], b, a.instance, w);
      Report(front + [a], b, b.instance, w);
      assert n * Get(a.counters, w) == (n - 1) * Get(a.counters, w) + Get(a.counters, w);
    }
  }

  lemma Report(front: seq<Reading>, r: Reading, instance: string, w: Counter)
    ensures SharedDelta(front + [r], w) == SharedDelta(front, w) + Gain(SharedLast(front, w), Get(r.counters, w))
    ensures SharedLast(front + [r], w) == Get(r.counters, w)
    ensures OwnDelta(front + [r], instance, w) == OwnDelta(front, instance, w) +
            if r.instance == instance then Gain(OwnLast(front, instance, w), Get(r.counters, w)) else 0
    ensures OwnLast(front + [r], instance, w) == if r.instance == instance then Get(r.counters, w)
            else OwnLast(front, instance, w)
    ensures SharedDelta([], w) == 0 && SharedLast([], w) == 0 && OwnDelta([], instance, w) == 0 &&
            OwnLast([], instance, w) == 0
  {
    ReadingSnoc(front, r, instance, w);
    assert Plain(front + [r]) == Plain(front) + [r.counters];
    assert (front + [r])[..|front|] == front;
    FeedSnoc(FRESH, Plain(front), r.counters, w);
    FeedSnoc(FRESH, ReadingsOf(front, instance), r.counters, w);
  }

  // -------------------------------------------------------------- statistics

  datatype TunnelState = TunnelState(status: Option<string>, counters: Counters)

  datatype Stats = Stats(total: nat, running: nat, stopped: nat, errors: nat, counters: Counters)

  const NO_STATS := Stats(0, 0, 0, 0, NOTHING)

  /** One more tunnel in the statistics. */
  function Count(s: Stats, t: TunnelState): Stats {
    Stats(s.total + 1,
          if t.status == Some("running") then s.running + 1 else s.running,
          if t.status == Some("stopped") then s.stopped + 1 else s.stopped,
          if t.status == Some("error") then s.errors + 1 else s.errors,
          Counters(s.counters.tcpRx + t.counters.tcpRx, s.counters.tcpTx + t.counters.tcpTx,
                   s.counters.udpRx + t.counters.udpRx, s.counters.udpTx + t.counters.udpTx))
  }

  /** The statistics of a tunnel map, whatever the order in which it is walked. */
  ghost function StatsOf(tunnels: map<string, TunnelState>): Stats {
    if tunnels == map[] then NO_STATS
    else
      var id :| id in tunnels;
      Count(StatsOf(tunnels - {id}), tunnels[id])
  }

  lemma CountCommutes(s: Stats, t: TunnelState, u: TunnelState)
    ensures Count(Count(s, t), u) == Count(Count(s, u), t)
  {
  }

  /** Any tunnel may be counted last. */
  lemma {:induction false} StatsWith(tunnels: map<string, TunnelState>, id: string)
    requires id in tunnels
    ensures StatsOf(tunnels) == Count(StatsOf(tunnels - {id}), tunnels[id])
    decreases |tunnels|
  {
    hide Count;
    assert tunnels != map[];
    var first :| first in tunnels && StatsOf(tunnels) == Count(StatsOf(tunnels - {first}), tunnels[first]);
    if first != id {
      var rest := tunnels - {first} - {id};
      assert tunnels - {id} - {first} == rest;
      StatsWith(tunnels - {first}, id);
      StatsWith(tunnels - {id}, first);
      CountCommutes(StatsOf(rest), tunnels[id], tunnels[first]);
    }
  }

  /** An update replaces exactly the updated tunnel's part of the traffic totals. */
  lemma UpdateReplacesShare(tunnels: map<string, TunnelState>, id: string, t: TunnelState, w: Counter)
    ensures var before, after := StatsOf(tunnels), StatsOf(tunnels[id := t]);
            && after.total == before.total + (if id in tunnels then 0 else 1)
            && Get(after.counters, w) ==
               Get(before.counters, w) + Get(t.counters, w) -
               (if id in tunnels then Get(tunnels[id].counters, w) else 0)
  {
    StatsWith(tunnels[id := t], id);
    var rest := tunnels - {id};
    assert tunnels[id := t] - {id} == rest;
    if id in tunnels {
      StatsWith(tunnels, id);
    } else {
      assert rest == tunnels;
    }
    hide StatsOf;
  }

  predicate KnownStatus(t: TunnelState) {
    t.status == Some("running") || t.status == Some("stopped") || t.status == Some("error")
  }

  /** One tunnel more is one more in the total, and in a status count only if its status is known. */
  lemma CountAdds(s: Stats, t: TunnelState)
    ensures var c := Count(s, t);
            && c.total == s.total + 1
            && c.running + c.stopped + c.errors == s.running + s.stopped + s.errors + if KnownStatus(t) then 1 else 0
  {
  }

  lemma OneFewer(tunnels: map<string, TunnelState>, id: string)
    requires id in tunnels
    ensures |tunnels| == |tunnels - {id}| + 1
    ensures tunnels == (tunnels - {id})[id := tunnels[id]]
  {
    var rest := tunnels - {id};
    assert tunnels.Keys == rest.Keys + {id};
    assert |tunnels.Keys| == |tunnels| && |rest.Keys| == |rest|;
  }

  /** The three status counts add up to the total exactly when every tunnel has one of the three statuses. */
  lemma {:induction false} StatusesAddUp(tunnels: map<string, TunnelState>)
    ensures var s := StatsOf(tunnels);
            && s.total == |tunnels| && s.running + s.stopped + s.errors <= s.total
            && (s.running + s.stopped + s.errors == s.total <==>
                forall id :: id in tunnels ==> KnownStatus(tunnels[id]))
    decreases |tunnels|
  {
    assert StatsOf(map[]) == NO_STATS;
    hide StatsOf, Count, KnownStatus;
    if tunnels != map[] {
      var id :| id in tunnels;
      OneFewer(tunnels, id);
      StatsWith(tunnels, id);
      StatusesAddUp(tunnels - {id});
      CountAdds(StatsOf(tunnels - {id}), tunnels[id]);
    }
  }

  /** The tunnels of one status. */
  function With(tunnels: map<string, TunnelState>, status: string): set<string> {
    set id | id in tunnels && tunnels[id].status == Some(status)
  }

  lemma WithAdds(tunnels: map<string, TunnelState>, id: string, status: string)
    requires id in tunnels
    ensures |With(tunnels, status)| ==
            |With(tunnels - {id}, status)| + (if tunnels[id].status == Some(status) then 1 else 0)
  {
    var all, rest := With(tunnels, status), With(tunnels - {id}, status);
    if tunnels[id].status == Some(status) {
      assert all == rest + {id} && id !in rest;
    } else {
      assert all == rest;
    }
  }

  /** Each status count is the number of tunnels of that status; any other status is in none of them. */
  lemma {:induction false} StatusesAreCounted(tunnels: map<string, TunnelState>)
    ensures var s := StatsOf(tunnels);
            && s.running == |With(tunnels, "running")|
            && s.stopped == |With(tunnels, "stopped")|
            && s.errors == |With(tunnels, "error")|
    decreases |tunnels|
  {
    if tunnels == map[] {
      assert StatsOf(map[]) == NO_STATS;
      assert forall status: string :: With(map[], status) == {};
    } else {
      hide StatsOf, With;
      var id :| id in tunnels;
      OneFewer(tunnels, id);
      StatsWith(tunnels, id);
      StatusesAreCounted(tunnels - {id});
      WithAdds(tunnels, id, "running");
      WithAdds(tunnels, id, "stopped");
      WithAdds(tunnels, id, "error");
    }
  }

  // ------------------------------------------------------------------ the code

  /** `EndpointState` with its snapshot and statistics. */
  class EndpointState {
    var tunnels: map<string, TunnelState>
    var snapshot: Option<Snapshot>
    var stats: Stats

    /** `InitEndpoint`: the snapshot starts at zero. */
    constructor ()
      ensures tunnels == map[] && snapshot == Some(Snapshot(NOTHING, NOTHING)) && stats == StatsOf(tunnels)
    {
      tunnels, snapshot, stats := map[], Some(Snapshot(NOTHING, NOTHING)), NO_STATS;
    }

    method CalculateTrafficDelta(current: Counters)
      modifies this`snapshot
      ensures snapshot == Some(Feed(old(snapshot), current))
      ensures snapshot.value.last == current
      ensures old(snapshot).None? ==> forall w :: Get(snapshot.value.delta, w) == 0
      ensures old(snapshot).Some? ==> forall w ::
                Get(snapshot.value.delta, w) == Get(old(snapshot).value.delta, w) +
                (if Get(current, w) >= Get(old(snapshot).value.last, w)
                 then Get(current, w) - Get(old(snapshot).value.last, w) else Get(current, w))
    {
      if snapshot.None? {
        snapshot := Some(Snapshot(current, NOTHING));
        return;
      }
      var last, delta := snapshot.value.last, snapshot.value.delta;
      var deltaRx, deltaTx := current.tcpRx - last.tcpRx, current.tcpTx - last.tcpTx;
      var deltaUdpRx, deltaUdpTx := current.udpRx - last.udpRx, current.udpTx - last.udpTx;
      if deltaRx < 0 { deltaRx := current.tcpRx; }
      if deltaTx < 0 { deltaTx := current.tcpTx; }
      if deltaUdpRx < 0 { deltaUdpRx := current.udpRx; }
      if deltaUdpTx < 0 { deltaUdpTx := current.udpTx; }
      snapshot := Some(Snapshot(current, Counters(delta.tcpRx + deltaRx, delta.tcpTx + deltaTx,
                                                  delta.udpRx + deltaUdpRx, delta.udpTx + deltaUdpTx)));
    }

    method UpdateTunnelState(instanceID: string, update: TunnelState)
      modifies this`tunnels, this`stats
      ensures tunnels == old(tunnels)[instanceID := update] && stats == StatsOf(tunnels)
      ensures stats.total == |tunnels| && stats.running == |With(tunnels, "running")|
      ensures stats.stopped == |With(tunnels, "stopped")| && stats.errors == |With(tunnels, "error")|
    {
      hide StatsOf, With;
      tunnels := tunnels[instanceID := update];
      stats := RecalculateStats(tunnels);
    }
  }

  method RecalculateStats(tunnels: map<string, TunnelState>) returns (stats: Stats)
    ensures stats == StatsOf(tunnels)
    ensures stats.total == |tunnels| && stats.running == |With(tunnels, "running")|
    ensures stats.stopped == |With(tunnels, "stopped")| && stats.errors == |With(tunnels, "error")|
  {
    hide With, StatsOf;
    assert StatsOf(map[]) == NO_STATS by {
      NothingCounted();
    }
    stats := NO_STATS;
    var pending := tunnels.Keys;
    assert tunnels - pending == map[];
    while pending != {}
      invariant pending <= tunnels.Keys && stats == StatsOf(tunnels - pending)
      decreases pending
    {
      var id :| id in pending;
      var tunnel := tunnels[id];
      StatsWith(tunnels - (pending - {id}), id);
      assert tunnels - (pending - {id}) - {id} == tunnels - pending;
      pending := pending - {id};
      stats := stats.(total := stats.total + 1);
      if tunnel.status == Some("running") {
        stats := stats.(running := stats.running + 1);
      } else if tunnel.status == Some("stopped") {
        stats := stats.(stopped := stats.stopped + 1);
      } else if tunnel.status == Some("error") {
        stats := stats.(errors := stats.errors + 1);
      }
      stats := stats.(counters := Counters(stats.counters.tcpRx + tunnel.counters.tcpRx,
                                           stats.counters.tcpTx + tunnel.counters.tcpTx,
                                           stats.counters.udpRx + tunnel.counters.udpRx,
                                           stats.counters.udpTx + tunnel.counters.udpTx));
    }
    assert tunnels - {} == tunnels;
    StatusesAddUp(tunnels);
    StatusesAreCounted(tunnels);
  }

  lemma NothingCounted()
    ensures StatsOf(map[]) == NO_STATS
  {
  }
}
