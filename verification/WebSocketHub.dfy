/**
 The WebSocket hub: one goroutine picks registrations, removals and broadcasts in any order. Removing
 a client closes its send channel; a broadcast asks for the removal of every client whose channel is full.
 */
module WebSocketHub {
  import opened Wrappers

  const CAPACITY := 256

  /** The kind of a client other than these two is in no group. */
  datatype Kind = System | Tunnel | Other

  datatype Client = Client(id: int, kind: Kind, endpoint: int, instance: string)

  /** The endpoint or the instance under which clients are kept. */
  datatype Group = OfEndpoint(endpoint: int) | OfInstance(instance: string)

  /**
   `sent` counts the messages waiting in a client's channel, `closes` how often it was closed.
   `panicked` is set by a send on, or a second close of, a closed channel; `stuck` when the hub waits for itself.
   */
  datatype State = State(groups: map<Group, set<Client>>, removals: seq<Client>, sent: map<Client, nat>,
                         closes: multiset<Client>, panicked: bool, stuck: bool)

  datatype Event =
    | Register(client: Client)
    | Leave(client: Client)
    | Remove
    | Broadcast(group: Group, order: seq<Client>)
    | Drain(client: Client)

  const EMPTY := State(map[], [], map[], multiset{}, false, false)

  function GroupOf(c: Client): Option<Group> {
    match c.kind
    case System => Some(OfEndpoint(c.endpoint))
    case Tunnel => Some(OfInstance(c.instance))
    case Other => None
  }

  function Members(s: State, g: Group): set<Client> {
    if g in s.groups then s.groups[g] else {}
  }

  function Waiting(s: State, c: Client): nat {
    if c in s.sent then s.sent[c] else 0
  }

  predicate Registered(s: State, c: Client) {
    GroupOf(c).Some? && c in Members(s, GroupOf(c).value)
  }

  // ------------------------------------------------------------------- steps

  function RegisterClient(s: State, c: Client): State {
    match GroupOf(c)
    case None => s
    case Some(g) => s.(groups := s.groups[g := Members(s, g) + {c}])
  }

  /** A client that is not in its group is left alone. */
  function UnregisterClient(s: State, c: Client): State {
    match GroupOf(c)
    case None => s
    case Some(g) =>
      if c !in Members(s, g) then s
      else
        var rest := s.groups[g] - {c};
        s.(groups := if rest == {} then s.groups - {g} else s.groups[g := rest],
           closes := s.closes + multiset{c}, panicked := s.panicked || c in s.closes)
  }

  /**
   One client of a broadcast: a message if there is room, otherwise a removal request, for which the hub may
   have to wait.
   */
  function SendOne(s: State, c: Client): State {
    if s.stuck then s
    else if c in s.closes then s.(panicked := true)
    else if Waiting(s, c) < CAPACITY then s.(sent := s.sent[c := Waiting(s, c) + 1])
    else if |s.removals| < CAPACITY then s.(removals := s.removals + [c])
    else s.(stuck := true)
  }

  function SendAll(s: State, order: seq<Client>): State {
    if order == [] then s else SendOne(SendAll(s, order[..|order| - 1]), order[|order| - 1])
  }

  predicate IsOrderOf(order: seq<Client>, members: set<Client>) {
    && (forall c :: c in order ==> c in members) && (forall c :: c in members ==> c in order)
    && (forall i, j :: 0 <= i < j < |order| ==> order[i] != order[j])
  }

  function Step(s: State, e: Event): State {
    match e
    case Leave(c) => if |s.removals| < CAPACITY then s.(removals := s.removals + [c]) else s
    case Drain(c) => if Waiting(s, c) > 0 then s.(sent := s.sent[c := Waiting(s, c) - 1]) else s
    case Register(c) => if s.stuck || s.panicked then s else RegisterClient(s, c)
    case Remove =>
      if s.stuck || s.panicked || s.removals == [] then s
      else UnregisterClient(s.(removals := s.removals[1..]), s.removals[0])
    case Broadcast(g, order) => if s.stuck || s.panicked || !IsOrderOf(order, Members(s, g)) then s
                                else SendAll(s, order)
  }

  function Exec(s: State, es: seq<Event>): State {
    if es == [] then s else Step(Exec(s, es[..|es| - 1]), es[|es| - 1])
  }

  // --------------------------------------------------------- channel lifecycle

  /** A client stands in its own group only, with an open channel; no group is empty; no channel is closed twice. */
  ghost predicate Inv(s: State) {
    && (forall g :: g in s.groups ==> s.groups[g] != {} && forall c :: c in s.groups[g] ==> GroupOf(c) == Some(g))
    && (forall c :: Registered(s, c) ==> c !in s.closes)
    && (forall c: Client :: s.closes[c] <= 1)
    && !s.panicked
  }

  /**
   A registration keeps this exactly when the client's channel has not been closed before, or the client has no
   group.
   */
  lemma RegisterExactly(s: State, c: Client)
    requires Inv(s)
    ensures Inv(RegisterClient(s, c)) <==> (GroupOf(c).Some? ==> c !in s.closes)
  {
    var t := RegisterClient(s, c);
    if GroupOf(c).Some? {
      assert Registered(t, c);
      if c !in s.closes {
        forall d | Registered(t, d) ensures d !in t.closes {
          assert d == c || Registered(s, d);
        }
      }
    }
  }

  lemma UnregisterInv(s: State, c: Client)
    requires Inv(s)
    ensures Inv(UnregisterClient(s, c))
    ensures Registered(s, c) ==> UnregisterClient(s, c).closes[c] == 1 && !Registered(UnregisterClient(s, c), c)
  {
    var t := UnregisterClient(s, c);
    if Registered(s, c) {
      forall d | Registered(t, d) ensures d !in t.closes {
        assert Registered(s, d);
      }
    }
  }

  /** A broadcast neither registers nor closes anyone. */
  lemma {:induction false} SendAllKeeps(s: State, order: seq<Client>)
    requires Inv(s) && forall c :: c in order ==> c !in s.closes
    ensures var t := SendAll(s, order);
            t.groups == s.groups && t.closes == s.closes && !t.panicked
  {
    if order != [] {
      hide Inv;
      assert order[|order| - 1] in order;
      SendAllKeeps(s, order[..|order| - 1]);
    } else {
      assert !s.panicked;
    }
  }

  /** Clients register at most once each: the channel of one that was removed is not offered again. */
  predicate Once(s: State, e: Event) {
    e.Register? ==> e.client !in s.closes
  }

  lemma StepInv(s: State, e: Event)
    requires Inv(s) && Once(s, e)
    ensures Inv(Step(s, e))
  {
    match e
    case Register(c) => RegisterExactly(s, c);
    case Remove =>
      if s.removals != [] {
        SameGroups(s, s.(removals := s.removals[1..]));
        UnregisterInv(s.(removals := s.removals[1..]), s.removals[0]);
      }
    case Broadcast(g, order) =>
      if !s.stuck && IsOrderOf(order, Members(s, g)) {
        forall c | c in order ensures c !in s.closes {
          assert Registered(s, c);
        }
        SendAllKeeps(s, order);
        SameGroups(s, SendAll(s, order));
      }
    case _ => SameGroups(s, Step(s, e));
  }

  lemma SameGroups(s: State, t: State)
    requires Inv(s) && t.groups == s.groups && t.closes == s.closes && !t.panicked
    ensures Inv(t)
  {
    forall c ensures Registered(t, c) == Registered(s, c) {
    }
  }

  /** In a run where every client registers at most once, no client registers after its channel was closed. */
  ghost predicate EachOnce(es: seq<Event>) {
    forall i, j :: 0 <= i < j < |es| && es[i].Register? && es[j].Register? ==> es[i].client != es[j].client
  }

  /** Only registered clients ever get closed. */
  lemma {:induction false} ClosedWereRegistered(es: seq<Event>, c: Client)
    ensures c in Exec(EMPTY, es).closes || Registered(Exec(EMPTY, es), c) ==> Register(c) in es
  {
    if es != [] {
      var front, last := es[..|es| - 1], es[|es| - 1];
      ClosedWereRegistered(front, c);
      if last != Register(c) {
        StepRegisters(Exec(EMPTY, front), last, c);
        hide Step;
      }
    }
  }

  lemma StepRegisters(s: State, e: Event, c: Client)
    requires e != Register(c)
    ensures c in Step(s, e).closes || Registered(Step(s, e), c) ==> c in s.closes || Registered(s, c)
  {
    if e.Broadcast? {
      SendAllGroups(s, e.order);
    }
  }

  lemma {:induction false} SendAllGroups(s: State, order: seq<Client>)
    ensures SendAll(s, order).groups == s.groups && SendAll(s, order).closes == s.closes
  {
    if order != [] {
      SendAllGroups(s, order[..|order| - 1]);
    }
  }

  lemma LastIsNew(es: seq<Event>)
    requires EachOnce(es) && es != [] && es[|es| - 1].Register?
    ensures es[|es| - 1] !in es[..|es| - 1] && EachOnce(es[..|es| - 1])
  {
  }

  /**
   With each client registered at most once, in every run: a registered client's channel is open, no
   channel is closed twice, no broadcast sends on a closed channel, and no empty group remains.
   */
  lemma {:induction false} RunIsSafe(es: seq<Event>)
    requires EachOnce(es)
    ensures Inv(Exec(EMPTY, es))
  {
    if es != [] {
      hide Step, Inv;
      var front, last := es[..|es| - 1], es[|es| - 1];
      RunIsSafe(front);
      if last.Register? {
        ClosedWereRegistered(front, last.client);
        LastIsNew(es);
      }
      StepInv(Exec(EMPTY, front), last);
    } else {
      assert Inv(EMPTY);
    }
  }

  // ------------------------------------------------------------- membership

  /** The hub still picks events. */
  predicate Serving(s: State) {
    !s.stuck && !s.panicked
  }

  /** The hub's main loop takes the client's removal from the head of the queue. */
  predicate Removes(s: State, e: Event, c: Client) {
    e.Remove? && s.removals != [] && s.removals[0] == c
  }

  /** Since its latest registration the client has not been removed. */
  predicate Present(es: seq<Event>, c: Client) {
    es != [] &&
    var front, last := es[..|es| - 1], es[|es| - 1];
    var s := Exec(EMPTY, front);
    if Serving(s) && last == Register(c) then true
    else if Serving(s) && Removes(s, last, c) then false
    else Present(front, c)
  }

  /** System clients belong to their endpoint, tunnel clients to their instance, and others nowhere. */
  predicate BelongsTo(c: Client, g: Group) {
    match g
    case OfEndpoint(endpoint) => c.kind == System && c.endpoint == endpoint
    case OfInstance(instance) => c.kind == Tunnel && c.instance == instance
  }

  lemma StepMembers(s: State, e: Event, c: Client, g: Group)
    requires c in Members(s, g) ==> BelongsTo(c, g)
    ensures c in Members(Step(s, e), g) <==>
            if Serving(s) && e == Register(c) then BelongsTo(c, g)
            else if Serving(s) && Removes(s, e, c) then false
            else c in Members(s, g)
  {
    assert BelongsTo(c, g) <==> GroupOf(c) == Some(g);
    hide BelongsTo;
    if e.Broadcast? {
      SendAllGroups(s, e.order);
      hide SendAll;
    }
  }

  /** In every run a client stands in a group exactly if it belongs there, has registered and was not removed since. */
  lemma {:induction false} MembersExactly(es: seq<Event>, c: Client, g: Group)
    ensures c in Members(Exec(EMPTY, es), g) <==> BelongsTo(c, g) && Present(es, c)
  {
    if es != [] {
      hide Step, Members, Serving, Removes, BelongsTo;
      MembersExactly(es[..|es| - 1], c, g);
      StepMembers(Exec(EMPTY, es[..|es| - 1]), es[|es| - 1], c, g);
    }
  }

  /** No channel ever holds more than its capacity. */
  ghost predicate Within(s: State) {
    |s.removals| <= CAPACITY && forall c: Client :: Waiting(s, c) <= CAPACITY
  }

  lemma {:induction false} SendAllWithin(s: State, order: seq<Client>)
    requires Within(s)
    ensures Within(SendAll(s, order))
  {
    if order != [] {
      var t := SendAll(s, order[..|order| - 1]);
      var u := SendOne(t, order[|order| - 1]);
      SendAllWithin(s, order[..|order| - 1]);
      forall c ensures Waiting(u, c) <= CAPACITY {
        assert Waiting(t, c) <= CAPACITY;
      }
    }
  }

  lemma StepWithin(s: State, e: Event)
    requires Within(s)
    ensures Within(Step(s, e))
  {
    hide SendAll;
    if e.Broadcast? {
      SendAllWithin(s, e.order);
      hide Within;
    } else {
      forall c ensures Waiting(Step(s, e), c) <= CAPACITY {
        assert Waiting(s, c) <= CAPACITY;
      }
    }
  }

  lemma {:induction false} RunWithin(es: seq<Event>)
    ensures Within(Exec(EMPTY, es))
  {
    if es == [] {
      assert Within(EMPTY);
    } else {
      hide Step, Within;
      RunWithin(es[..|es| - 1]);
      StepWithin(Exec(EMPTY, es[..|es| - 1]), es[|es| - 1]);
    }
  }

  // ---------------------------------------------------------- the hub may wait for itself

  /** The clients of a broadcast that have no room. */
  function Full(s: State, order: seq<Client>): nat {
    if order == [] then 0
    else Full(s, order[..|order| - 1]) + (if Waiting(s, order[|order| - 1]) >= CAPACITY then 1 else 0)
  }

  /** What a broadcast does to the removal queue and to the clients still to be served. */
  lemma {:induction false} SendAllQueues(s: State, order: seq<Client>)
    requires !s.stuck && |s.removals| <= CAPACITY && (forall c :: c in order ==> c !in s.closes)
    requires forall i, j :: 0 <= i < j < |order| ==> order[i] != order[j]
    ensures var t := SendAll(s, order);
            && (t.stuck <==> |s.removals| + Full(s, order) > CAPACITY)
            && (!t.stuck ==> |t.removals| == |s.removals| + Full(s, order))
            && (forall c :: c !in order ==> Waiting(t, c) == Waiting(s, c))
            && t.closes == s.closes
  {
    if order != [] {
      var front, last := order[..|order| - 1], order[|order| - 1];
      assert last in order && forall c :: c in front ==> c in order;
      SendAllQueues(s, front);
      assert last !in front;
      hide SendAll, Full;
      var t := SendAll(s, front);
      assert Waiting(t, last) == Waiting(s, last) && last !in t.closes;
    }
  }

  /**
   The removal queue is served by the very goroutine that broadcasts. A broadcast blocks it for good
   exactly when the requests already queued and the full clients of the group exceed the queue's capacity.
   */
  lemma {:induction false} BroadcastBlocksExactly(es: seq<Event>, g: Group, order: seq<Client>)
    requires EachOnce(es) && !Exec(EMPTY, es).stuck && IsOrderOf(order, Members(Exec(EMPTY, es), g))
    ensures var s := Exec(EMPTY, es);
            Step(s, Broadcast(g, order)).stuck <==> |s.removals| + Full(s, order) > CAPACITY
  {
    hide Exec, EachOnce;
    var s := Exec(EMPTY, es);
    RunIsSafe(es);
    RunWithin(es);
    forall c | c in order ensures c !in s.closes {
      assert Registered(s, c);
    }
    SendAllQueues(s, order);
    hide SendAll, Full;
  }

  /** Each client of a broadcast gets one message if it has room. */
  lemma {:induction false} SendAllServes(s: State, order: seq<Client>, c: Client)
    requires !s.stuck && |s.removals| <= CAPACITY && (forall c :: c in order ==> c !in s.closes)
    requires forall i, j :: 0 <= i < j < |order| ==> order[i] != order[j]
    ensures !SendAll(s, order).stuck ==>
            Waiting(SendAll(s, order), c) ==
            Waiting(s, c) + if c in order && Waiting(s, c) < CAPACITY then 1 else 0
  {
    if order != [] {
      var front, last := order[..|order| - 1], order[|order| - 1];
      assert order == front + [last];
      SendAllServes(s, front, c);
      SendAllGroups(s, front);
      assert last !in front;
      SendAllUnfolds(s, order);
      SendOneServes(SendAll(s, front), last, c);
      hide SendAll, SendOne, Waiting;
    }
  }

  lemma SendOneServes(s: State, d: Client, c: Client)
    requires d !in s.closes
    ensures s.stuck ==> SendOne(s, d).stuck
    ensures !SendOne(s, d).stuck ==>
            Waiting(SendOne(s, d), c) == Waiting(s, c) + if d == c && Waiting(s, c) < CAPACITY then 1 else 0
  {
  }

  lemma {:induction false} SendAllUnfolds(s: State, order: seq<Client>)
    requires order != []
    ensures SendAll(s, order) == SendOne(SendAll(s, order[..|order| - 1]), order[|order| - 1])
  {
  }

  /** The clients of a broadcast that have no room, in the order of the broadcast. */
  function FullOnes(s: State, order: seq<Client>): seq<Client> {
    if order == [] then []
    else
      var front, last := FullOnes(s, order[..|order| - 1]), order[|order| - 1];
      if Waiting(s, last) >= CAPACITY then front + [last] else front
  }

  lemma {:induction false} SendAllRequests(s: State, order: seq<Client>)
    requires !s.stuck && |s.removals| <= CAPACITY && (forall c :: c in order ==> c !in s.closes)
    requires forall i, j :: 0 <= i < j < |order| ==> order[i] != order[j]
    ensures !SendAll(s, order).stuck ==> SendAll(s, order).removals == s.removals + FullOnes(s, order)
  {
    if order != [] {
      var front, last := order[..|order| - 1], order[|order| - 1];
      assert last in order && forall c :: c in front ==> c in order;
      SendAllRequests(s, front);
      SendAllServes(s, front, last);
      SendAllGroups(s, front);
      assert last !in front;
      SendAllUnfolds(s, order);
      hide SendAll, FullOnes;
    }
  }

  /**
   In every run a broadcast that does not block the hub gives each member of the group one message if it
   has room, asks for the removal of exactly the members that have none, once each, and leaves every
   other client alone.
   */
  lemma {:induction false} BroadcastServes(es: seq<Event>, g: Group, order: seq<Client>, c: Client)
    requires EachOnce(es) && IsOrderOf(order, Members(Exec(EMPTY, es), g))
    requires !Exec(EMPTY, es).stuck && !Step(Exec(EMPTY, es), Broadcast(g, order)).stuck
    ensures var s, t := Exec(EMPTY, es), Step(Exec(EMPTY, es), Broadcast(g, order));
            && t.groups == s.groups && t.closes == s.closes
            && t.removals == s.removals + FullOnes(s, order)
            && Waiting(t, c) ==
               Waiting(s, c) + if c in Members(s, g) && Waiting(s, c) < CAPACITY then 1 else 0
  {
    hide Exec, EachOnce;
    var s := Exec(EMPTY, es);
    RunIsSafe(es);
    RunWithin(es);
    forall c | c in order ensures c !in s.closes {
      assert Registered(s, c);
    }
    SendAllServes(s, order, c);
    SendAllRequests(s, order);
    SendAllGroups(s, order);
    hide SendAll, Full, FullOnes;
  }

  // ------------------------------------------------- messages and requests

  /** The messages that broadcasts have put into a client's channel. */
  function Delivered(es: seq<Event>, c: Client): nat {
    if es == [] then 0
    else
      var front, last := es[..|es| - 1], es[|es| - 1];
      var s := Exec(EMPTY, front);
      Delivered(front, c) +
      (if last.Broadcast? && IsOrderOf(last.order, Members(s, last.group)) && c in last.order &&
          Waiting(s, c) < CAPACITY then 1 else 0)
  }

  /** The messages that the client has taken out of it. */
  function Taken(es: seq<Event>, c: Client): nat {
    if es == [] then 0
    else
      var front, last := es[..|es| - 1], es[|es| - 1];
      Taken(front, c) + if last == Drain(c) && Waiting(Exec(EMPTY, front), c) > 0 then 1 else 0
  }

  /** The removals that an event asks for. */
  function NewRequests(s: State, e: Event): seq<Client> {
    match e
    case Leave(c) => if |s.removals| < CAPACITY then [c] else []
    case Broadcast(g, order) => if IsOrderOf(order, Members(s, g)) then FullOnes(s, order) else []
    case _ => []
  }

  /** The removals asked for: by a client that leaves while the queue has room, and by broadcasts. */
  function Requested(es: seq<Event>): seq<Client> {
    if es == [] then []
    else
      var front, last := es[..|es| - 1], es[|es| - 1];
      var s := Exec(EMPTY, front);
      Requested(front) + NewRequests(s, last)
  }

  /** The removals that the hub has carried out. */
  function Removals(es: seq<Event>): nat {
    if es == [] then 0
    else
      var front, last := es[..|es| - 1], es[|es| - 1];
      Removals(front) + if last == Remove && Exec(EMPTY, front).removals != [] then 1 else 0
  }

  /** Until the hub blocks: what is delivered is waiting or taken, and removals are queued in the order of requests. */
  ghost predicate Balanced(es: seq<Event>) {
    var s := Exec(EMPTY, es);
    && (forall c :: Delivered(es, c) == Waiting(s, c) + Taken(es, c))
    && Removals(es) <= |Requested(es)| && s.removals == Requested(es)[Removals(es)..]
  }

  /** What one more event adds to the four counts. */
  lemma {:induction false} CountsGrow(es: seq<Event>, e: Event, c: Client)
    ensures var s, all := Exec(EMPTY, es), es + [e];
            && Delivered(all, c) == Delivered(es, c) +
               (if e.Broadcast? && IsOrderOf(e.order, Members(s, e.group)) && c in e.order && Waiting(s, c) < CAPACITY
                then 1 else 0)
            && Taken(all, c) == Taken(es, c) + (if e == Drain(c) && Waiting(s, c) > 0 then 1 else 0)
            && Requested(all) == Requested(es) + NewRequests(s, e)
            && Removals(all) == Removals(es) + (if e == Remove && s.removals != [] then 1 else 0)
  {
    hide Exec, IsOrderOf, Members, Waiting, FullOnes;
    assert (es + [e])[..|es|] == es;
  }

  /** Every other event moves at most one message or one request. */
  lemma QuietStep(s: State, e: Event, c: Client)
    requires Serving(s) && (e.Broadcast? ==> !IsOrderOf(e.order, Members(s, e.group)))
    ensures var t := Step(s, e);
            && Waiting(t, c) + (if e == Drain(c) && Waiting(s, c) > 0 then 1 else 0) == Waiting(s, c)
            && t.removals == if e.Remove? && s.removals != [] then s.removals[1..] else s.removals + NewRequests(s, e)
  {
    hide FullOnes, IsOrderOf, Members;
  }

  lemma {:induction false} StepBalances(es: seq<Event>, e: Event)
    requires EachOnce(es) && !Exec(EMPTY, es).stuck && !Step(Exec(EMPTY, es), e).stuck && Balanced(es)
    ensures Balanced(es + [e])
  {
    ExecSnoc(es, e);
    RunIsSafe(es);
    hide Exec, EachOnce, Delivered, Taken, Requested, Removals, FullOnes, IsOrderOf, Waiting, Step;
    var s, t, all := Exec(EMPTY, es), Exec(EMPTY, es + [e]), es + [e];
    forall c ensures Delivered(all, c) == Waiting(t, c) + Taken(all, c) {
      CountsGrow(es, e, c);
      if e.Broadcast? && IsOrderOf(e.order, Members(s, e.group)) {
        BroadcastServes(es, e.group, e.order, c);
      } else {
        QuietStep(s, e, c);
      }
    }
    QueueGrows(es, e);
  }

  lemma {:induction false} QueueGrows(es: seq<Event>, e: Event)
    requires EachOnce(es) && !Exec(EMPTY, es).stuck && !Step(Exec(EMPTY, es), e).stuck && Balanced(es)
    requires Exec(EMPTY, es + [e]) == Step(Exec(EMPTY, es), e) && Serving(Exec(EMPTY, es))
    ensures var all := es + [e];
            Removals(all) <= |Requested(all)| && Exec(EMPTY, all).removals == Requested(all)[Removals(all)..]
  {
    hide Exec, EachOnce, Delivered, Taken, Requested, Removals, FullOnes, IsOrderOf, Waiting, Step;
    var c := Client(0, Other, 0, "");
    var s := Exec(EMPTY, es);
    CountsGrow(es, e, c);
    if e.Broadcast? && IsOrderOf(e.order, Members(s, e.group)) {
      BroadcastServes(es, e.group, e.order, c);
    } else {
      QuietStep(s, e, c);
    }
  }

  lemma {:induction false} ExecSnoc(es: seq<Event>, e: Event)
    ensures Exec(EMPTY, es + [e]) == Step(Exec(EMPTY, es), e)
  {
    assert (es + [e])[..|es|] == es;
  }

  /**
   Conservation: as long as the hub does not block, in every run with single registrations the messages
   delivered to a client are those waiting and those it took, and the removal queue is what was
   requested, in order, without what was carried out.
   */
  lemma {:induction false} RunBalances(es: seq<Event>)
    requires EachOnce(es) && !Exec(EMPTY, es).stuck
    ensures Balanced(es)
  {
    if es == [] {
      assert forall c :: Waiting(EMPTY, c) == 0;
    } else {
      var front, last := es[..|es| - 1], es[|es| - 1];
      assert es == front + [last];
      StuckStays(Exec(EMPTY, front), last);
      hide Balanced, Exec, Step;
      ExecSnoc(front, last);
      RunBalances(front);
      StepBalances(front, last);
    }
  }

  lemma StuckStays(s: State, e: Event)
    ensures s.stuck ==> Step(s, e).stuck
  {
  }

  // --------------------------------------------------- what a second registration does

  lemma {:induction false} SendAllPanics(s: State, order: seq<Client>)
    requires !s.stuck
    ensures var t := SendAll(s, order);
            && t.closes == s.closes
            && (!t.stuck ==> (t.panicked <==> s.panicked || exists c :: c in order && c in s.closes))
  {
    if order != [] {
      var front, last := order[..|order| - 1], order[|order| - 1];
      assert order == front + [last];
      SendAllPanics(s, front);
      SendAllUnfolds(s, order);
      hide SendAll;
      if (exists c :: c in order && c in s.closes) && last !in s.closes {
        var c :| c in order && c in s.closes;
        assert c in front;
      }
      assert last in order;
    }
  }

  /**
   The hub panics exactly where a client whose channel was closed is still, or again, in its group: at its
   removal, or at a broadcast to the group that gets as far as it.
   */
  lemma PanicsExactly(s: State, e: Event)
    requires Serving(s)
    ensures e.Remove? ==>
            (Step(s, e).panicked <==> s.removals != [] && Registered(s, s.removals[0]) && s.removals[0] in s.closes)
    ensures e.Broadcast? && IsOrderOf(e.order, Members(s, e.group)) && !Step(s, e).stuck ==>
            (Step(s, e).panicked <==> exists c :: c in Members(s, e.group) && c in s.closes)
    ensures !e.Remove? && !e.Broadcast? ==> !Step(s, e).panicked
  {
    if e.Broadcast? && IsOrderOf(e.order, Members(s, e.group)) {
      SendAllPanics(s, e.order);
    }
    hide SendAll;
  }

  /** A client registers, and then n broadcasts to its group are picked with nothing in between. */
  function Flood(c: Client, g: Group, n: nat): seq<Event> {
    if n == 0 then [Register(c)] else Flood(c, g, n - 1) + [Broadcast(g, [c])]
  }

  lemma FloodUnfolds(c: Client, g: Group, n: nat)
    ensures n == 0 ==> Exec(EMPTY, Flood(c, g, n)) == Step(EMPTY, Register(c))
    ensures n > 0 ==> Exec(EMPTY, Flood(c, g, n)) == Step(Exec(EMPTY, Flood(c, g, n - 1)), Broadcast(g, [c]))
  {
    hide Step;
    if n == 0 {
      assert [Register(c)][..0] == [];
      assert Exec(EMPTY, [Register(c)]) == Step(Exec(EMPTY, []), Register(c));
    } else {
      var front := Flood(c, g, n - 1);
      assert (front + [Broadcast(g, [c])])[..|front|] == front;
    }
  }

  /** One broadcast to a group of one. */
  lemma FloodStep(s: State, c: Client, g: Group)
    requires !s.stuck && !s.panicked && Members(s, g) == {c} && c !in s.closes
    ensures var t := Step(s, Broadcast(g, [c]));
            && t.groups == s.groups && t.closes == s.closes && !t.panicked
            && (Waiting(s, c) < CAPACITY ==> Waiting(t, c) == Waiting(s, c) + 1 && t.removals == s.removals && !t.stuck)
            && (Waiting(s, c) >= CAPACITY ==> Waiting(t, c) == Waiting(s, c))
            && (Waiting(s, c) >= CAPACITY && |s.removals| < CAPACITY ==> |t.removals| == |s.removals| + 1 && !t.stuck)
            && (Waiting(s, c) >= CAPACITY && |s.removals| >= CAPACITY ==> t.stuck)
  {
    assert [c][..0] == [];
    assert SendAll(s, [c]) == SendOne(SendAll(s, []), c);
    assert IsOrderOf([c], {c});
  }

  /** The first broadcasts fill the client's channel, the next ones the removal queue. */
  lemma {:induction false} FloodFills(c: Client, g: Group, n: nat)
    requires GroupOf(c) == Some(g) && n <= CAPACITY + CAPACITY
    ensures var s := Exec(EMPTY, Flood(c, g, n));
            && !s.stuck && !s.panicked && Members(s, g) == {c} && c !in s.closes
            && Waiting(s, c) == (if n < CAPACITY then n else CAPACITY)
            && |s.removals| == (if n < CAPACITY then 0 else n - CAPACITY)
  {
    hide Step, Exec, Flood, Waiting, Members;
    FloodUnfolds(c, g, n);
    if n == 0 {
      FirstRegistered(c, g);
    } else {
      FloodFills(c, g, n - 1);
      FloodStep(Exec(EMPTY, Flood(c, g, n - 1)), c, g);
      SameMembers(Exec(EMPTY, Flood(c, g, n - 1)), Exec(EMPTY, Flood(c, g, n)), g);
    }
  }

  lemma FirstRegistered(c: Client, g: Group)
    requires GroupOf(c) == Some(g)
    ensures var s := Step(EMPTY, Register(c));
            && !s.stuck && !s.panicked && Members(s, g) == {c} && c !in s.closes && Waiting(s, c) == 0 &&
               s.removals == []
  {
  }

  lemma SameMembers(s: State, t: State, g: Group)
    requires t.groups == s.groups
    ensures Members(t, g) == Members(s, g)
  {
  }

  /** The hub does come to wait for itself: 513 broadcasts to one client that reads nothing suffice, and 512 do not. */
  lemma {:induction false} HubCanBlock(c: Client, g: Group)
    requires GroupOf(c) == Some(g)
    ensures !Exec(EMPTY, Flood(c, g, 512)).stuck && Exec(EMPTY, Flood(c, g, 513)).stuck
    ensures EachOnce(Flood(c, g, 513))
  {
    hide Step, Exec, Flood;
    FloodFills(c, g, 512);
    FloodUnfolds(c, g, 513);
    FloodStep(Exec(EMPTY, Flood(c, g, 512)), c, g);
    FloodOnce(c, g, 513);
  }

  lemma {:induction false} FloodOnce(c: Client, g: Group, n: nat)
    ensures EachOnce(Flood(c, g, n)) && |Flood(c, g, n)| == n + 1
    ensures forall i :: 1 <= i <= n ==> Flood(c, g, n)[i] == Broadcast(g, [c])
  {
    if n > 0 {
      FloodOnce(c, g, n - 1);
    }
  }

  // ------------------------------------------------------------------ the code

  class Hub {
    /** `systemClients` and `tunnelClients`, told apart by the kind of group. */
    var clients: map<Group, set<Client>>
    /** The channel `unregister`. */
    var unregister: seq<Client>
    /** Messages waiting in each client's channel, and the channels closed so far. */
    var sent: map<Client, nat>
    var closes: multiset<Client>
    var panicked: bool
    var stuck: bool

    function Model(): State
      reads this
    {
      State(clients, unregister, sent, closes, panicked, stuck)
    }

    method RegisterOne(client: Client)
      requires !stuck && !panicked
      modifies this`clients
      ensures Model() == Step(old(Model()), Register(client))
    {
      var group := GroupOf(client);
      if group.Some? {
        if group.value !in clients {
          clients := clients[group.value := {}];
        }
        clients := clients[group.value := clients[group.value] + {client}];
      }
    }

    method UnregisterOne(client: Client)
      modifies this`clients, this`closes, this`panicked
      ensures Model() == UnregisterClient(old(Model()), client)
    {
      var group := GroupOf(client);
      if group.Some? && group.value in clients && client in clients[group.value] {
        clients := clients[group.value := clients[group.value] - {client}];
        if client in closes {
          panicked := true;
        }
        closes := closes + multiset{client};
        if clients[group.value] == {} {
          clients := clients - {group.value};
        }
      }
    }

    /** The unregister case of `Run`. */
    method RunRemoval()
      requires !stuck && !panicked && unregister != []
      modifies this
      ensures Model() == Step(old(Model()), Remove)
    {
      var client := unregister[0];
      unregister := unregister[1..];
      UnregisterOne(client);
    }

    /** Both broadcasts; the map gives the members in an order the caller cannot choose. */
    method BroadcastTo(group: Group) returns (order: seq<Client>)
      requires !stuck && !panicked
      modifies this`sent, this`unregister, this`panicked, this`stuck
      ensures IsOrderOf(order, Members(old(Model()), group))
      ensures Model() == Step(old(Model()), Broadcast(group, order))
    {
      order := [];
      var pending := if group in clients then clients[group] else {};
      ghost var members := pending;
      while pending != {}
        invariant pending <= members && IsOrderOf(order, members - pending)
        invariant Model() == SendAll(old(Model()), order)
        decreases pending
      {
        var client :| client in pending;
        pending := pending - {client};
        ghost var front := order;
        order := order + [client];
        assert order[..|order| - 1] == front;
        SendMessage(client);
      }
      assert members - {} == members;
    }

    method SendMessage(client: Client)
      modifies this`sent, this`unregister, this`panicked, this`stuck
      ensures Model() == SendOne(old(Model()), client)
    {
      if stuck {
        return;
      }
      if client in closes {
        panicked := true;
      } else if Waiting(Model(), client) < CAPACITY {
        sent := sent[client := Waiting(Model(), client) + 1];
      } else if |unregister| < CAPACITY {
        unregister := unregister + [client];
      } else {
        stuck := true;
      }
    }
  }
}
