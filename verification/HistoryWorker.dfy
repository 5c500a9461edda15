/**
 The history worker: monitoring points pile up per instance, and every twelfth point of an instance
 empties its pile into one batch for aggregation. Removals drop a pile without writing it; one that
 falls between the lookup of a pile and the append leaves the worker with a pile of its own.
 */
module HistoryWorker {
  import opened Sequences
  import opened Wrappers
  import opened Text
  import Decimal

  const BATCH := 12
  const MAX_IDLE := 600

  datatype Point = Point(endpoint: int, instance: string, tcpIn: int, tcpOut: int, udpIn: int, udpOut: int,
                         ping: Option<int>, pool: Option<int>, tcps: Option<int>, udps: Option<int>, time: real)

  datatype Status = Status(result: seq<Point>, lastAccess: int)

  /** Points handed to `aggregateAndWrite`, with the key they were collected under. */
  datatype Batch = Batch(key: string, points: seq<Point>)

  /** A point whose pile was looked up; `detached` is that pile once it has left the map. */
  datatype Hand = Hand(point: Point, detached: Option<seq<Point>>)

  /** The worker holds one point at most; the model allows one for every key. */
  datatype State = State(status: map<string, Status>, hands: map<string, Hand>, batches: seq<Batch>)

  datatype Event =
    | Look(point: Point, now: int)
    | Append(point: Point, now: int)
    | RemoveInstance(endpoint: int, instance: string)
    | RemoveEndpoint(endpoint: int)
    | Cleanup(now: int)

  const EMPTY := State(map[], map[], [])

  // -------------------------------------------------------------------- keys

  function DataKey(endpoint: int, instance: string): string {
    Decimal.Format(endpoint) + "_" + instance
  }

  function KeyOf(p: Point): string {
    DataKey(p.endpoint, p.instance)
  }

  /** The prefix test of `RemoveEndpoint`. */
  predicate Under(key: string, endpoint: int) {
    var prefix := Decimal.Format(endpoint) + "_";
    |key| > |prefix| && key[..|prefix|] == prefix
  }

  lemma DataKeyParts(endpoint: int, instance: string)
    ensures CutAt(DataKey(endpoint, instance), '_') == Halves(Decimal.Format(endpoint), instance, true)
  {
    var e := Decimal.Format(endpoint);
    assert '_' !in e;
    hide Decimal.Format;
    assert DataKey(endpoint, instance) == e + ['_'] + instance;
    CutOfConcat(e, '_', instance);
  }

  /** Two instances never share a key, although instance ids may contain '_'. */
  lemma DataKeyInjective(e: int, i: string, f: int, j: string)
    requires DataKey(e, i) == DataKey(f, j)
    ensures e == f && i == j
  {
    hide DataKey, Decimal.Format;
    DataKeyParts(e, i);
    DataKeyParts(f, j);
    Decimal.Injective(e, f);
  }

  /**
   Removing an endpoint hits exactly its own keys with a non-empty instance id, not those of an endpoint whose
   number starts alike.
   */
  lemma RemoveEndpointExact(endpoint: int, e: int, instance: string)
    ensures Under(DataKey(e, instance), endpoint) <==> e == endpoint && instance != ""
  {
    hide Decimal.Format;
    var key, prefix := DataKey(e, instance), Decimal.Format(endpoint) + "_";
    if e == endpoint {
      assert key == prefix + instance;
    }
    if Under(key, endpoint) {
      var rest := key[|prefix|..];
      assert key == prefix + rest;
      assert key == DataKey(endpoint, rest);
      DataKeyInjective(e, instance, endpoint, rest);
    }
  }

  // ------------------------------------------------------------------- steps

  function ResultAt(s: State, key: string): seq<Point> {
    if key in s.status then s.status[key].result else []
  }

  /** The pile of a key, wherever it is. */
  function PileOf(s: State, key: string): seq<Point> {
    if key in s.hands && s.hands[key].detached.Some? then s.hands[key].detached.value else ResultAt(s, key)
  }

  /** Finds the pile of a point, or makes one. */
  function LookUp(s: State, p: Point, now: int): State {
    var key := KeyOf(p);
    s.(status := if key in s.status then s.status else s.status[key := Status([], now)],
       hands := s.hands[key := Hand(p, None)])
  }

  predicate Holds(s: State, p: Point) {
    KeyOf(p) in s.hands && s.hands[KeyOf(p)].point == p
  }

  /** Appends the point to the pile that was looked up; the twelfth point empties it into a batch. */
  function AppendPoint(s: State, p: Point, now: int): State
    requires Holds(s, p)
  {
    var key := KeyOf(p);
    var result := PileOf(s, key) + [p];
    var full := |result| >= BATCH;
    State(if s.hands[key].detached.Some? then s.status else s.status[key := Status(if full then [] else result, now)],
          s.hands - {key}, if full then s.batches + [Batch(key, result)] else s.batches)
  }

  /** The keys an event removes. */
  predicate Removes(s: State, e: Event, key: string) {
    match e
    case Look(_, _) => false
    case Append(_, _) => false
    case RemoveInstance(endpoint, instance) => key == DataKey(endpoint, instance)
    case RemoveEndpoint(endpoint) => Under(key, endpoint)
    case Cleanup(now) => key in s.status && now - s.status[key].lastAccess > MAX_IDLE
  }

  /** A removed pile that was looked up stays with the worker. */
  function HandAfter(s: State, e: Event, key: string): Hand
    requires key in s.hands
  {
    if Removes(s, e, key) && s.hands[key].detached.None? then s.hands[key].(detached := Some(ResultAt(s, key)))
    else s.hands[key]
  }

  function Remove(s: State, e: Event): State {
    s.(status := map key | key in s.status && !Removes(s, e, key) :: s.status[key],
       hands := map key | key in s.hands :: HandAfter(s, e, key))
  }

  function Step(s: State, e: Event): State {
    match e
    case Look(p, now) => if KeyOf(p) in s.hands then s else LookUp(s, p, now)
    case Append(p, now) => if Holds(s, p) then AppendPoint(s, p, now) else s
    case _ => Remove(s, e)
  }

  function Exec(s: State, es: seq<Event>): State {
    if es == [] then s else Step(Exec(s, es[..|es| - 1]), es[|es| - 1])
  }

  // ------------------------------------------------------------- independence

  /** The batches emitted for a key, in order. */
  function Emitted(batches: seq<Batch>, key: string): seq<seq<Point>> {
    if batches == [] then []
    else
      var front, last := Emitted(batches[..|batches| - 1], key), batches[|batches| - 1];
      if last.key == key then front + [last.points] else front
  }

  lemma {:induction false} EmittedSnoc(batches: seq<Batch>, b: Batch, key: string)
    ensures Emitted(batches + [b], key) == if b.key == key then Emitted(batches, key) + [b.points]
            else Emitted(batches, key)
  {
    assert (batches + [b])[..|batches|] == batches;
  }

  /** Events that can concern a key; the clean-up timer concerns every key. */
  predicate Concerns(e: Event, key: string) {
    match e
    case Look(p, _) => KeyOf(p) == key
    case Append(p, _) => KeyOf(p) == key
    case RemoveInstance(endpoint, instance) => key == DataKey(endpoint, instance)
    case RemoveEndpoint(endpoint) => Under(key, endpoint)
    case Cleanup(_) => true
  }

  /** The sub-stream of one key. */
  function Own(es: seq<Event>, key: string): seq<Event> {
    if es == [] then []
    else if Concerns(es[|es| - 1], key) then Own(es[..|es| - 1], key) + [es[|es| - 1]]
    else Own(es[..|es| - 1], key)
  }

  ghost predicate SameFor(s: State, t: State, key: string) {
    && (key in s.status <==> key in t.status)
    && (key in s.status ==> s.status[key] == t.status[key])
    && (key in s.hands <==> key in t.hands)
    && (key in s.hands ==> s.hands[key] == t.hands[key])
    && Emitted(s.batches, key) == Emitted(t.batches, key)
  }

  /** The batches of a key after a step. */
  lemma {:induction false} StepEmits(s: State, e: Event, key: string)
    ensures Emitted(Step(s, e).batches, key) ==
            if e.Append? && KeyOf(e.point) == key && Holds(s, e.point) && |PileOf(s, key)| + 1 >= BATCH
            then Emitted(s.batches, key) + [PileOf(s, key) + [e.point]] else Emitted(s.batches, key)
  {
    hide Emitted, DataKey, Under;
    if e.Append? {
      EmittedSnoc(s.batches, Batch(KeyOf(e.point), PileOf(s, KeyOf(e.point)) + [e.point]), key);
    }
  }

  lemma StepIgnores(s: State, e: Event, key: string)
    requires !Concerns(e, key)
    ensures SameFor(Step(s, e), s, key)
  {
    hide Emitted, DataKey, Under;
    StepEmits(s, e, key);
  }

  lemma StepAgrees(s: State, t: State, e: Event, key: string)
    requires SameFor(s, t, key) && Concerns(e, key)
    ensures SameFor(Step(s, e), Step(t, e), key)
  {
    hide Emitted, DataKey, Under;
    StepEmits(s, e, key);
    StepEmits(t, e, key);
  }

  /**
   Independence: whatever other instances do in between, an instance's pile and its emitted batches
   are those of its own sub-stream run alone.
   */
  lemma {:induction false} InstancesAreIndependent(s: State, es: seq<Event>, key: string)
    ensures SameFor(Exec(s, es), Exec(s, Own(es, key)), key)
  {
    if es == [] {
    } else {
      hide Step, Emitted, Concerns;
      var front, last := es[..|es| - 1], es[|es| - 1];
      InstancesAreIndependent(s, front, key);
      if Concerns(last, key) {
        StepAgrees(Exec(s, front), Exec(s, Own(front, key)), last, key);
        var own := Own(front, key) + [last];
        assert own[..|own| - 1] == Own(front, key);
      } else {
        StepIgnores(Exec(s, front), last, key);
      }
    }
  }

  // ------------------------------------------------------ batches of exactly 12

  /** A pile holds points of its own key only, and fewer than twelve. */
  ghost predicate PileOk(pile: seq<Point>, key: string) {
    |pile| < BATCH && forall p :: p in pile ==> KeyOf(p) == key
  }

  ghost predicate BatchOk(b: Batch) {
    |b.points| == BATCH && forall p :: p in b.points ==> KeyOf(p) == b.key
  }

  /** A pile that was looked up is either the one in the map or has left the map. */
  ghost predicate HandOk(s: State, key: string)
    requires key in s.hands
  {
    var h := s.hands[key];
    && KeyOf(h.point) == key
    && (if h.detached.Some? then key !in s.status && PileOk(h.detached.value, key) else key in s.status)
  }

  ghost predicate Inv(s: State) {
    && (forall key :: key in s.status ==> PileOk(s.status[key].result, key))
    && (forall key :: key in s.hands ==> HandOk(s, key))
    && (forall b :: b in s.batches ==> BatchOk(b))
  }

  lemma PileIsOk(s: State, key: string)
    requires Inv(s)
    ensures PileOk(PileOf(s, key), key) && PileOk(ResultAt(s, key), key)
  {
    hide DataKey;
    assert key in s.hands ==> HandOk(s, key);
  }

  /**
   An explicit removal takes the piles of its own keys from the map, and no other; a clean-up takes the
   long idle ones.
   */
  lemma RemovalMeans(s: State, e: Event, endpoint: int, instance: string)
    ensures var key := DataKey(endpoint, instance);
            && (e.RemoveInstance? ==>
                (key in Step(s, e).status <==> key in s.status && !(endpoint == e.endpoint && instance == e.instance)))
            && (e.RemoveEndpoint? ==>
                (key in Step(s, e).status <==> key in s.status && !(endpoint == e.endpoint && instance != "")))
            && (e.Cleanup? ==>
                (key in Step(s, e).status <==> key in s.status && e.now - s.status[key].lastAccess <= 600))
            && (!e.Look? && !e.Append? && key in Step(s, e).status ==> Step(s, e).status[key] == s.status[key])
  {
    hide DataKey, Under, Decimal.Format;
    if e.RemoveInstance? {
      if DataKey(endpoint, instance) == DataKey(e.endpoint, e.instance) {
        DataKeyInjective(endpoint, instance, e.endpoint, e.instance);
      }
    } else if e.RemoveEndpoint? {
      RemoveEndpointExact(e.endpoint, endpoint, instance);
    }
  }

  lemma AppendInv(s: State, p: Point, now: int)
    requires Inv(s) && Holds(s, p)
    ensures Inv(AppendPoint(s, p, now))
  {
    hide DataKey;
    var t, key := AppendPoint(s, p, now), KeyOf(p);
    PileIsOk(s, key);
    assert HandOk(s, key);
    forall k | k in t.hands ensures HandOk(t, k) {
      assert HandOk(s, k);
    }
  }

  lemma RemoveInv(s: State, e: Event)
    requires Inv(s)
    ensures Inv(Remove(s, e))
  {
    hide DataKey, Under, Removes;
    var t := Remove(s, e);
    forall key | key in t.hands ensures HandOk(t, key) {
      assert HandOk(s, key);
    }
  }

  lemma StepInv(s: State, e: Event)
    requires Inv(s)
    ensures Inv(Step(s, e))
  {
    hide DataKey, Remove, AppendPoint;
    match e
    case Look(p, now) =>
      forall key | key in Step(s, e).hands ensures HandOk(Step(s, e), key) {
        assert key in s.hands ==> HandOk(s, key);
      }
    case Append(p, now) =>
      if Holds(s, p) {
        AppendInv(s, p, now);
      }
    case _ => RemoveInv(s, e);
  }

  lemma {:induction false} RunInv(s: State, es: seq<Event>)
    requires Inv(s)
    ensures Inv(Exec(s, es))
  {
    if es != [] {
      hide Step, Inv;
      RunInv(s, es[..|es| - 1]);
      StepInv(Exec(s, es[..|es| - 1]), es[|es| - 1]);
    }
  }

  // ------------------------------------------------------- where the points go

  /** The points of a key that the worker has taken up, in order. */
  function Received(es: seq<Event>, key: string): seq<Point> {
    if es == [] then []
    else
      var front, s, last := Received(es[..|es| - 1], key), Exec(EMPTY, es[..|es| - 1]), es[|es| - 1];
      if last.Look? && KeyOf(last.point) == key && key !in s.hands then front + [last.point] else front
  }

  /** The points of a key that it has appended to a pile. */
  function Appended(es: seq<Event>, key: string): seq<Point> {
    if es == [] then []
    else
      var front, s, last := Appended(es[..|es| - 1], key), Exec(EMPTY, es[..|es| - 1]), es[|es| - 1];
      if last.Append? && KeyOf(last.point) == key && Holds(s, last.point) then front + [last.point] else front
  }

  function InHand(s: State, key: string): seq<Point> {
    if key in s.hands then [s.hands[key].point] else []
  }

  /** In every run, whatever is removed, each point that was taken up is appended, but for the one in hand. */
  lemma {:induction false} AllAreAppended(es: seq<Event>, key: string)
    ensures Appended(es, key) + InHand(Exec(EMPTY, es), key) == Received(es, key)
  {
    if es != [] {
      hide ResultAt, PileOf, DataKey, Under;
      AllAreAppended(es[..|es| - 1], key);
    }
  }

  /** Emitted batches followed by the pile: nothing else of a key is kept. */
  function Kept(s: State, key: string): seq<Point> {
    Flat(Emitted(s.batches, key)) + PileOf(s, key)
  }

  /** Whether a point is appended to a pile that has left the map and is too short for a batch. */
  predicate Wasted(s: State, e: Event, key: string) {
    && e.Append? && KeyOf(e.point) == key && Holds(s, e.point)
    && s.hands[key].detached.Some? && |PileOf(s, key)| + 1 < BATCH
  }

  /** What a step loses: a pile that nobody has looked up, or one that left the map, with its last point. */
  function DroppedBy(s: State, e: Event, key: string): nat {
    if Wasted(s, e, key) then |PileOf(s, key)| + 1
    else if Removes(s, e, key) && key !in s.hands then |ResultAt(s, key)|
    else 0
  }

  function Dropped(es: seq<Event>, key: string): nat {
    if es == [] then 0
    else Dropped(es[..|es| - 1], key) + DroppedBy(Exec(EMPTY, es[..|es| - 1]), es[|es| - 1], key)
  }

  lemma AppendPile(s: State, p: Point, now: int, key: string)
    requires Inv(s) && Holds(s, p) && KeyOf(p) == key
    ensures PileOf(AppendPoint(s, p, now), key) ==
            if s.hands[key].detached.Some? || |PileOf(s, key)| + 1 >= BATCH then [] else PileOf(s, key) + [p]
  {
    hide DataKey, PileOk;
    assert HandOk(s, key);
    assert key !in AppendPoint(s, p, now).hands;
  }

  lemma AppendKeeps(s: State, p: Point, now: int, key: string)
    requires Inv(s) && Holds(s, p) && KeyOf(p) == key
    ensures Wasted(s, Append(p, now), key) ==>
            Kept(AppendPoint(s, p, now), key) + PileOf(s, key) == Kept(s, key)
    ensures !Wasted(s, Append(p, now), key) ==> Kept(AppendPoint(s, p, now), key) == Kept(s, key) + [p]
  {
    hide Emitted, DataKey, Flat, PileOf, AppendPoint, Inv;
    AppendPile(s, p, now, key);
    StepEmits(s, Append(p, now), key);
    var emitted, pile := Flat(Emitted(s.batches, key)), PileOf(s, key);
    FlatSnoc(Emitted(s.batches, key), pile + [p]);
    assert emitted + (pile + [p]) == emitted + pile + [p];
    assert emitted + (pile + [p]) + [] == emitted + (pile + [p]) && emitted + [] + pile == emitted + pile;
  }

  lemma OtherPile(s: State, e: Event, key: string)
    requires Inv(s) && !(e.Append? && KeyOf(e.point) == key && Holds(s, e.point))
    ensures PileOf(Step(s, e), key) == if Removes(s, e, key) && key !in s.hands then [] else PileOf(s, key)
  {
    hide DataKey, Under, PileOk;
    assert key in s.hands ==> HandOk(s, key);
  }

  /** Every other step leaves the kept points alone, but for a removal of a pile that nobody has looked up. */
  lemma OthersKeep(s: State, e: Event, key: string)
    requires Inv(s) && !(e.Append? && KeyOf(e.point) == key && Holds(s, e.point))
    ensures |Kept(Step(s, e), key)| + DroppedBy(s, e, key) == |Kept(s, key)|
    ensures e.Look? || e.Append? ==> Kept(Step(s, e), key) == Kept(s, key)
  {
    hide Emitted, DataKey, Under, Flat, Step, Inv;
    OtherPile(s, e, key);
    StepEmits(s, e, key);
  }

  /** Without removals, the batches of a key followed by its pile are exactly its appended points, in order. */
  lemma {:induction false} NothingLost(es: seq<Event>, key: string)
    requires forall e :: e in es ==> e.Look? || e.Append?
    ensures Kept(Exec(EMPTY, es), key) == Appended(es, key)
    ensures forall k :: k in Exec(EMPTY, es).hands ==> Exec(EMPTY, es).hands[k].detached.None?
  {
    if es != [] {
      hide Kept, Inv, DataKey, Flat, Emitted;
      var front, last := es[..|es| - 1], es[|es| - 1];
      assert last in es && forall e :: e in front ==> e in es;
      NothingLost(front, key);
      var s := Exec(EMPTY, front);
      assert Inv(EMPTY) by { EmptyIsOk(); }
      RunInv(EMPTY, front);
      if last.Append? && KeyOf(last.point) == key && Holds(s, last.point) {
        AppendKeeps(s, last.point, last.now, key);
      } else {
        OthersKeep(s, last, key);
      }
    } else {
      NothingYet(key);
    }
  }

  lemma EmptyIsOk()
    ensures Inv(EMPTY)
  {
  }

  lemma NothingYet(key: string)
    ensures Kept(EMPTY, key) == [] && AtRisk(EMPTY, key) == 0
  {
  }

  /** What the next append would lose. */
  function AtRisk(s: State, key: string): nat {
    if key in s.hands && s.hands[key].detached.Some? && |PileOf(s, key)| + 1 < BATCH then |PileOf(s, key)| + 1 else 0
  }

  function Removals(es: seq<Event>): nat {
    if es == [] then 0 else Removals(es[..|es| - 1]) + (if es[|es| - 1].Look? || es[|es| - 1].Append? then 0 else 1)
  }

  lemma RiskStep(s: State, e: Event, key: string)
    requires Inv(s)
    ensures DroppedBy(s, e, key) + AtRisk(Step(s, e), key) <=
            AtRisk(s, key) + if e.Look? || e.Append? then 0 else BATCH - 1
  {
    PileIsOk(s, key);
    assert key in s.hands ==> HandOk(s, key);
    hide DataKey, Under;
  }

  /**
   In every run the appended points of a key are kept, or were dropped with a pile: at most eleven for
   every removal, even when it falls between a lookup and its append.
   */
  lemma {:induction false} OnlyPilesAreLost(es: seq<Event>, key: string)
    ensures |Kept(Exec(EMPTY, es), key)| + Dropped(es, key) == |Appended(es, key)|
    ensures Dropped(es, key) + AtRisk(Exec(EMPTY, es), key) <= (BATCH - 1) * Removals(es)
  {
    EmptyIsOk();
    NothingYet(key);
    hide Step, Kept, Inv, DroppedBy, AtRisk, Wasted, Holds;
    if es != [] {
      var front, last := es[..|es| - 1], es[|es| - 1];
      OnlyPilesAreLost(front, key);
      RunInv(EMPTY, front);
      var s := Exec(EMPTY, front);
      RiskStep(s, last, key);
      LossStep(s, last, key);
    }
  }

  lemma LossStep(s: State, e: Event, key: string)
    requires Inv(s)
    ensures |Kept(Step(s, e), key)| + DroppedBy(s, e, key) ==
            |Kept(s, key)| + if e.Append? && KeyOf(e.point) == key && Holds(s, e.point) then 1 else 0
  {
    if e.Append? && KeyOf(e.point) == key && Holds(s, e.point) {
      AppendKeeps(s, e.point, e.now, key);
    } else {
      OthersKeep(s, e, key);
    }
    hide Kept, Inv, DataKey, PileOf, AppendPoint;
  }

  /** A pile is still there after a clean-up exactly if it was in the map at the append, and that within ten minutes. */
  lemma RecentPileSurvives(s: State, p: Point, now: int, later: int)
    requires Inv(s) && Holds(s, p)
    ensures var t, key := Step(s, Append(p, now)), KeyOf(p);
            && (key in Step(t, Cleanup(later)).status <==> s.hands[key].detached.None? && later - now <= MAX_IDLE)
            && (key in Step(t, Cleanup(later)).status ==> ResultAt(Step(t, Cleanup(later)), key) == ResultAt(t, key))
  {
    hide DataKey;
    assert HandOk(s, KeyOf(p));
  }

  /** A second point is looked up when its pile is long idle, and the clean-up comes before the append. */
  function WastedRun(p: Point, q: Point, now: int): seq<Event> {
    [Look(p, 0)] + [Append(p, 0)] + [Look(q, now)] + [Cleanup(now)] + [Append(q, now)]
  }

  /** The states of that run. */
  function Wasting(p: Point, q: Point, n: nat): State {
    var key := KeyOf(p);
    if n == 0 then EMPTY
    else if n == 1 then State(map[key := Status([], 0)], map[key := Hand(p, None)], [])
    else if n == 2 then State(map[key := Status([p], 0)], map[], [])
    else if n == 3 then State(map[key := Status([p], 0)], map[key := Hand(q, None)], [])
    else if n == 4 then State(map[], map[key := Hand(q, Some([p]))], [])
    else EMPTY
  }

  lemma WastingStep(p: Point, q: Point, now: int, n: nat)
    requires KeyOf(p) == KeyOf(q) && now > MAX_IDLE && n < 5
    ensures Step(Wasting(p, q, n), WastedRun(p, q, now)[n]) == Wasting(p, q, n + 1)
  {
    hide DataKey;
    var s, e, key := Wasting(p, q, n), WastedRun(p, q, now)[n], KeyOf(p);
    if n == 1 || n == 4 {
      assert PileOf(s, key) + [e.point] == if n == 1 then [p] else [p] + [q];
      assert s.hands - {key} == map[];
    } else if n == 3 {
      assert HandAfter(s, e, key) == Hand(q, Some([p]));
      assert Step(s, e).hands.Keys == {key};
    }
  }

  lemma {:induction false} ExecSnoc(s: State, es: seq<Event>, e: Event)
    ensures Exec(s, es + [e]) == Step(Exec(s, es), e)
  {
    assert (es + [e])[..|es|] == es;
  }

  /** It leaves nothing of either point. */
  lemma CleanupBetweenDropsPoint(p: Point, q: Point, now: int)
    requires KeyOf(p) == KeyOf(q) && now > MAX_IDLE
    ensures Exec(EMPTY, WastedRun(p, q, now)) == EMPTY
  {
    hide Step, Wasting;
    var run := WastedRun(p, q, now);
    assert Wasting(p, q, 0) == EMPTY == Wasting(p, q, 5) by { WastingEnds(p, q); }
    for i := 0 to |run|
      invariant Exec(EMPTY, run[..i]) == Wasting(p, q, i)
    {
      ExecSnoc(EMPTY, run[..i], run[i]);
      assert run[..i + 1] == run[..i] + [run[i]];
      WastingStep(p, q, now, i);
    }
    assert run[..|run|] == run;
  }

  lemma WastingEnds(p: Point, q: Point)
    ensures Wasting(p, q, 0) == EMPTY == Wasting(p, q, 5)
  {
  }

  lemma {:induction false} FlatLength(bs: seq<seq<Point>>)
    requires forall b :: b in bs ==> |b| == BATCH
    ensures |Flat(bs)| == BATCH * |bs|
  {
    if bs != [] {
      FlatLength(bs[..|bs| - 1]);
    }
  }

  lemma {:induction false} FlatOfTwelves(bs: seq<seq<Point>>, i: nat)
    requires (forall b :: b in bs ==> |b| == BATCH) && i < |bs|
    ensures |Flat(bs)| == BATCH * |bs|
    ensures Flat(bs)[BATCH * i..BATCH * (i + 1)] == bs[i]
  {
    FlatLength(bs);
    var front, last := bs[..|bs| - 1], bs[|bs| - 1];
    FlatLength(front);
    if i == |front| {
      assert Flat(bs)[BATCH * i..BATCH * (i + 1)] == last;
    } else {
      FlatOfTwelves(front, i);
      assert Flat(bs)[BATCH * i..BATCH * (i + 1)] == Flat(front)[BATCH * i..BATCH * (i + 1)];
    }
  }

  lemma {:induction false} EmittedMembers(batches: seq<Batch>, key: string)
    ensures forall b :: b in Emitted(batches, key) ==> Batch(key, b) in batches
  {
    if batches != [] {
      EmittedMembers(batches[..|batches| - 1], key);
    }
  }

  lemma {:induction false} EmittedAreTwelves(s: State, key: string)
    requires Inv(s)
    ensures forall b :: b in Emitted(s.batches, key) ==> |b| == BATCH
  {
    hide Emitted;
    EmittedMembers(s.batches, key);
    forall b | b in Emitted(s.batches, key) ensures |b| == BATCH {
      assert BatchOk(Batch(key, b));
    }
  }

  /**
   Without removals, an instance with n appended points has n / 12 batches, and its pile is the last n % 12
   points.
   */
  lemma {:induction false} PileIsRest(es: seq<Event>, key: string)
    requires forall e :: e in es ==> e.Look? || e.Append?
    ensures var points, n := Appended(es, key), |Appended(es, key)|;
            && |Emitted(Exec(EMPTY, es).batches, key)| == n / BATCH
            && PileOf(Exec(EMPTY, es), key) == points[n - n % BATCH..]
  {
    EmptyIsOk();
    hide Exec, Flat, Emitted, Appended, PileOf;
    var t := Exec(EMPTY, es);
    RunInv(EMPTY, es);
    NothingLost(es, key);
    EmittedAreTwelves(t, key);
    PileIsOk(t, key);
    FlatLength(Emitted(t.batches, key));
  }

  /** The i-th batch of an instance is points 12i up to 12i + 11 of its sub-stream. */
  lemma {:induction false} BatchesAreTwelves(es: seq<Event>, key: string, i: nat)
    requires forall e :: e in es ==> e.Look? || e.Append?
    requires i < |Appended(es, key)| / BATCH
    ensures i < |Emitted(Exec(EMPTY, es).batches, key)|
    ensures Emitted(Exec(EMPTY, es).batches, key)[i] == Appended(es, key)[BATCH * i..BATCH * (i + 1)]
  {
    EmptyIsOk();
    hide Exec, Flat, Emitted, Appended, PileOf;
    var t := Exec(EMPTY, es);
    PileIsRest(es, key);
    RunInv(EMPTY, es);
    NothingLost(es, key);
    EmittedAreTwelves(t, key);
    FlatOfTwelves(Emitted(t.batches, key), i);
    assert Kept(t, key)[BATCH * i..BATCH * (i + 1)] == Flat(Emitted(t.batches, key))[BATCH * i..BATCH * (i + 1)];
  }

  // -------------------------------------------------------------- aggregation

  datatype Row = Row(endpoint: int, instance: string, count: nat, tcpIn: int, tcpOut: int, udpIn: int, udpOut: int,
                     speedIn: real, speedOut: real, ping: real, pool: int, tcps: int, udps: int)

  const NOMINAL_SECONDS := 55.0

  /** How far a counter went, taking a fall for a restart from zero. */
  function Grown(first: int, last: int): int {
    if last - first < 0 then last else last - first
  }

  function Speed(firstTcp: int, lastTcp: int, firstUdp: int, lastUdp: int, seconds: real): real {
    if seconds > 0.0 then (Grown(firstTcp, lastTcp) + Grown(firstUdp, lastUdp)) as real / seconds
    else ((lastTcp - firstTcp) + (lastUdp - firstUdp)) as real / NOMINAL_SECONDS
  }

  function PingSum(points: seq<Point>): int {
    if points == [] then 0
    else PingSum(points[..|points| - 1]) +
         (if points[|points| - 1].ping.Some? then points[|points| - 1].ping.value else 0)
  }

  function PingCount(points: seq<Point>): nat {
    if points == [] then 0
    else PingCount(points[..|points| - 1]) + (if points[|points| - 1].ping.Some? then 1 else 0)
  }

  function Latest(v: Option<int>): int {
    if v.Some? then v.value else 0
  }

  function Aggregate(points: seq<Point>): Row
    requires points != []
  {
    var first, last := points[0], points[|points| - 1];
    var ping := if PingCount(points) > 0 then PingSum(points) as real / PingCount(points) as real else 0.0;
    Row(first.endpoint, first.instance, |points|, last.tcpIn, last.tcpOut, last.udpIn, last.udpOut,
        Speed(first.tcpIn, last.tcpIn, first.udpIn, last.udpIn, last.time - first.time),
        Speed(first.tcpOut, last.tcpOut, first.udpOut, last.udpOut, last.time - first.time),
        ping, Latest(last.pool), Latest(last.tcps), Latest(last.udps))
  }

  /** A speed over the time between two points: their rises, where a counter that fell counts from zero. */
  predicate SpeedMeans(speed: real, firstTcp: int, lastTcp: int, firstUdp: int, lastUdp: int, seconds: real) {
    if seconds > 0.0 then
      var tcp := if lastTcp >= firstTcp then lastTcp - firstTcp else lastTcp;
      var udp := if lastUdp >= firstUdp then lastUdp - firstUdp else lastUdp;
      speed * seconds == (tcp + udp) as real
    else speed * 55.0 == ((lastTcp - firstTcp) + (lastUdp - firstUdp)) as real
  }

  predicate LatestMeans(read: Option<int>, stored: int) {
    (read.Some? ==> stored == read.value) && (read.None? ==> stored == 0)
  }

  /**
   What a row says of its points: whose they are and how many, the last point's counters and optional
   readings, inbound and outbound speed from the counters of their own direction, and the average ping.
   */
  predicate RowMeans(points: seq<Point>, row: Row)
    requires points != []
  {
    var first, last := points[0], points[|points| - 1];
    && row.endpoint == first.endpoint && row.instance == first.instance && row.count == |points|
    && row.tcpIn == last.tcpIn && row.tcpOut == last.tcpOut && row.udpIn == last.udpIn && row.udpOut == last.udpOut
    && SpeedMeans(row.speedIn, first.tcpIn, last.tcpIn, first.udpIn, last.udpIn, last.time - first.time)
    && SpeedMeans(row.speedOut, first.tcpOut, last.tcpOut, first.udpOut, last.udpOut, last.time - first.time)
    && LatestMeans(last.pool, row.pool) && LatestMeans(last.tcps, row.tcps) && LatestMeans(last.udps, row.udps)
    && row.ping * PingCount(points) as real == PingSum(points) as real && (PingCount(points) == 0 ==> row.ping == 0.0)
  }

  lemma SpeedIsMeant(firstTcp: int, lastTcp: int, firstUdp: int, lastUdp: int, seconds: real)
    ensures SpeedMeans(Speed(firstTcp, lastTcp, firstUdp, lastUdp, seconds), firstTcp, lastTcp, firstUdp, lastUdp,
                       seconds)
  {
    if seconds > 0.0 {
      QuotientSign(Grown(firstTcp, lastTcp) + Grown(firstUdp, lastUdp), seconds);
    } else {
      QuotientSign((lastTcp - firstTcp) + (lastUdp - firstUdp), NOMINAL_SECONDS);
    }
  }

  lemma {:induction false} NoPingsNoSum(points: seq<Point>)
    requires PingCount(points) == 0
    ensures PingSum(points) == 0
  {
    if points != [] {
      NoPingsNoSum(points[..|points| - 1]);
    }
  }

  lemma AggregateMeans(points: seq<Point>)
    requires points != []
    ensures RowMeans(points, Aggregate(points))
  {
    hide Speed, SpeedMeans, PingSum, PingCount;
    var first, last := points[0], points[|points| - 1];
    SpeedIsMeant(first.tcpIn, last.tcpIn, first.udpIn, last.udpIn, last.time - first.time);
    SpeedIsMeant(first.tcpOut, last.tcpOut, first.udpOut, last.udpOut, last.time - first.time);
    if PingCount(points) > 0 {
      QuotientSign(PingSum(points), PingCount(points) as real);
    } else {
      NoPingsNoSum(points);
    }
  }

  /** Every ping that is present counts once, wherever it stands. */
  lemma {:induction false} PingsAddUp(xs: seq<Point>, ys: seq<Point>)
    ensures PingSum(xs + ys) == PingSum(xs) + PingSum(ys) && PingCount(xs + ys) == PingCount(xs) + PingCount(ys)
    ensures forall p: Point :: PingSum([p]) == (if p.ping.Some? then p.ping.value else 0)
    ensures forall p: Point :: PingCount([p]) == if p.ping.Some? then 1 else 0
  {
    if ys == [] {
      assert xs + ys == xs;
    } else {
      PingsAddUp(xs, ys[..|ys| - 1]);
      assert (xs + ys)[..|xs + ys| - 1] == xs + ys[..|ys| - 1];
    }
  }

  /** A batch written by the worker belongs to one instance, and its row names that instance. */
  lemma RowIsOwn(s: State, b: Batch, p: Point)
    requires Inv(s) && b in s.batches && p in b.points
    ensures Aggregate(b.points).endpoint == p.endpoint && Aggregate(b.points).instance == p.instance
    ensures Aggregate(b.points).count == BATCH
  {
    hide DataKey, PingSum, PingCount;
    assert BatchOk(b);
    assert KeyOf(b.points[0]) == b.key && KeyOf(p) == b.key;
    DataKeyInjective(b.points[0].endpoint, b.points[0].instance, p.endpoint, p.instance);
  }

  /**
   For non-negative readings a written speed is negative exactly when the clock did not advance and
   the two counters together fell: only the branch for advancing clocks knows about resets.
   */
  lemma NegativeSpeed(firstTcp: nat, lastTcp: nat, firstUdp: nat, lastUdp: nat, seconds: real)
    ensures Speed(firstTcp, lastTcp, firstUdp, lastUdp, seconds) < 0.0 <==>
            seconds <= 0.0 && lastTcp + lastUdp < firstTcp + firstUdp
  {
    if seconds > 0.0 {
      QuotientSign(Grown(firstTcp, lastTcp) + Grown(firstUdp, lastUdp), seconds);
    } else {
      QuotientSign((lastTcp - firstTcp) + (lastUdp - firstUdp), NOMINAL_SECONDS);
    }
  }

  lemma QuotientSign(n: int, d: real)
    requires d > 0.0
    ensures n as real / d < 0.0 <==> n < 0
    ensures (n as real / d) * d == n as real
  {
    var q := n as real / d;
    assert q * d == n as real;
    if q < 0.0 {
      assert q * d < 0.0;
    } else {
      assert q * d >= 0.0;
    }
  }

  /** Speed times time is the change of the two counters exactly when neither of them fell. */
  lemma SpeedTimesTime(firstTcp: nat, lastTcp: nat, firstUdp: nat, lastUdp: nat, seconds: real)
    requires seconds > 0.0
    ensures Speed(firstTcp, lastTcp, firstUdp, lastUdp, seconds) * seconds ==
            ((lastTcp - firstTcp) + (lastUdp - firstUdp)) as real
            <==> firstTcp <= lastTcp && firstUdp <= lastUdp
  {
    QuotientSign(Grown(firstTcp, lastTcp) + Grown(firstUdp, lastUdp), seconds);
  }

  lemma {:induction false} PingSumBetween(points: seq<Point>, low: int, high: int)
    requires forall p :: p in points && p.ping.Some? ==> low <= p.ping.value <= high
    ensures low * PingCount(points) <= PingSum(points) <= high * PingCount(points)
  {
    if points != [] {
      var front, last := points[..|points| - 1], points[|points| - 1];
      assert last in points;
      PingSumBetween(front, low, high);
      var n := PingCount(front);
      assert low * (n + 1) == low * n + low && high * (n + 1) == high * n + high;
      assert PingCount(points) == if last.ping.Some? then n + 1 else n;
    }
  }

  /** The average ping lies between any bounds of the pings that are present, and is zero when none is. */
  lemma PingIsAverage(points: seq<Point>, low: int, high: int)
    requires points != [] && forall p :: p in points && p.ping.Some? ==> low <= p.ping.value <= high
    ensures if exists p :: p in points && p.ping.Some? then low as real <= Aggregate(points).ping <= high as real
            else Aggregate(points).ping == 0.0
  {
    PingCounted(points);
    PingSumBetween(points, low, high);
    if PingCount(points) > 0 {
      hide PingSum, PingCount;
      MeanBetween(PingSum(points), PingCount(points), low, high);
    }
  }

  lemma Sign(x: real, d: real)
    requires d > 0.0
    ensures x * d >= 0.0 <==> x >= 0.0
  {
    if x < 0.0 {
      assert x * d < 0.0;
    } else {
      assert x * d >= 0.0;
    }
  }

  lemma MeanBetween(sum: int, n: nat, low: int, high: int)
    requires n > 0 && low * n <= sum <= high * n
    ensures low as real <= sum as real / n as real <= high as real
  {
    var q, d := sum as real / n as real, n as real;
    assert q * d == sum as real;
    assert (q - low as real) * d == (sum - low * n) as real;
    assert (high as real - q) * d == (high * n - sum) as real;
    Sign(q - low as real, d);
    Sign(high as real - q, d);
  }

  lemma {:induction false} PingCounted(points: seq<Point>)
    ensures PingCount(points) > 0 <==> exists p :: p in points && p.ping.Some?
  {
    if points != [] {
      var front, last := points[..|points| - 1], points[|points| - 1];
      PingCounted(front);
      assert points == front + [last];
      assert last.ping.Some? ==> last in points;
    }
  }
}
