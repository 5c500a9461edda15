/**
 The SSE manager's connections and listener contexts. Connecting, disconnecting and closing hold the
 manager's lock; the reconnect daemon copies the list first and then takes each connection through
 two reads of its flags, a cancellation and a connect, between which anything else may happen.
 */
module SseManager {
  import opened Wrappers

  /** A connection object; `cancel` names the context its cancel function ends. */
  datatype Conn = Conn(endpoint: int, cancel: Option<nat>, connected: bool, manual: bool)

  /** Where the reconnect daemon stands in its round. */
  datatype Daemon =
    | Resting
    | Checking(todo: seq<nat>)
    | Passed(conn: nat, todo: seq<nat>)
    | Decided(conn: nat, todo: seq<nat>)
    | Reconnecting(conn: nat, todo: seq<nat>)

  /**
   Objects and contexts are numbered in the order they are made; `owners[x]` is the connection context x
   listens for.
   */
  datatype State = State(connections: map<int, nat>, conns: seq<Conn>, owners: seq<nat>, cancelled: set<nat>,
                         stopped: bool, daemon: Daemon)

  datatype Event =
    | Connect(endpoint: int)
    | Disconnect(endpoint: int)
    | Listen(conn: nat, connected: bool)
    | Scan(order: seq<nat>)
    | Check
    | Decide(due: bool)
    | CancelOld
    | Finish
    | StopDaemon
    | CloseAll

  const EMPTY := State(map[], [], [], {}, false, Resting)

  // ------------------------------------------------------------------- steps

  function CancelOf(conns: seq<Conn>, c: nat): set<nat> {
    if c < |conns| && conns[c].cancel.Some? then {conns[c].cancel.value} else {}
  }

  /** Gives a connection a new context; it is a child of the daemon's context. */
  function Attach(s: State, c: nat): State
    requires c < |s.conns|
  {
    s.(conns := s.conns[c := s.conns[c].(cancel := Some(|s.owners|), manual := false)], owners := s.owners + [c])
  }

  function ConnectEndpoint(s: State, endpoint: int): State {
    if endpoint in s.connections && s.connections[endpoint] < |s.conns| then
      var c := s.connections[endpoint];
      var t := s.(cancelled := s.cancelled + CancelOf(s.conns, c),
                  conns := s.conns[c := s.conns[c].(connected := false)]);
      Attach(t, c)
    else
      var c := |s.conns|;
      Attach(s.(connections := s.connections[endpoint := c],
                conns := s.conns + [Conn(endpoint, None, false, false)]), c)
  }

  function DisconnectEndpoint(s: State, endpoint: int): State {
    if endpoint in s.connections && s.connections[endpoint] < |s.conns| then
      var c := s.connections[endpoint];
      s.(cancelled := s.cancelled + CancelOf(s.conns, c), connections := s.connections - {endpoint},
         conns := s.conns[c := s.conns[c].(manual := true, connected := false)])
    else s
  }

  predicate Holds(connections: map<int, nat>, c: nat) {
    exists e :: e in connections && connections[e] == c
  }

  /** The connections of the map, in any order. */
  predicate IsScan(order: seq<nat>, connections: map<int, nat>) {
    (forall c :: c in order ==> Holds(connections, c)) && (forall e :: e in connections ==> connections[e] in order)
  }

  /** The first read: a connection that was disconnected by hand is passed over. */
  function CheckNext(s: State): State
    requires s.daemon.Checking?
  {
    if s.daemon.todo == [] then s.(daemon := Resting)
    else
      var c, rest := s.daemon.todo[0], s.daemon.todo[1..];
      if c >= |s.conns| || s.conns[c].manual then s.(daemon := Checking(rest)) else s.(daemon := Passed(c, rest))
  }

  /** The second read: so is one that is connected, or that was tried less than half a minute ago. */
  function DecidePassed(s: State, due: bool): State
    requires s.daemon.Passed?
  {
    var c, rest := s.daemon.conn, s.daemon.todo;
    if c >= |s.conns| || s.conns[c].connected || !due then s.(daemon := Checking(rest))
    else s.(daemon := Decided(c, rest))
  }

  /** The first half of `reconnectEndpoint`, outside the manager's lock. */
  function CancelDecided(s: State): State
    requires s.daemon.Decided?
  {
    s.(cancelled := s.cancelled + CancelOf(s.conns, s.daemon.conn),
       daemon := Reconnecting(s.daemon.conn, s.daemon.todo))
  }

  function AllCancels(s: State): set<nat> {
    set e | e in s.connections && s.connections[e] < |s.conns| && s.conns[s.connections[e]].cancel.Some? ::
      s.conns[s.connections[e]].cancel.value
  }

  function CloseConnections(s: State): State {
    s.(cancelled := s.cancelled + AllCancels(s), connections := map[],
       conns := seq(|s.conns|, i requires 0 <= i < |s.conns| =>
                      if s.conns[i].endpoint in s.connections && s.connections[s.conns[i].endpoint] == i
                      then s.conns[i].(manual := true) else s.conns[i]))
  }

  function Step(s: State, e: Event): State {
    match e
    case Connect(endpoint) => ConnectEndpoint(s, endpoint)
    case Disconnect(endpoint) => DisconnectEndpoint(s, endpoint)
    case Listen(c, connected) => if c < |s.conns| then s.(conns := s.conns[c := s.conns[c].(connected := connected)])
                                 else s
    case Scan(order) => if s.daemon.Resting? && IsScan(order, s.connections) then s.(daemon := Checking(order)) else s
    case Check => if s.daemon.Checking? then CheckNext(s) else s
    case Decide(due) => if s.daemon.Passed? then DecidePassed(s, due) else s
    case CancelOld => if s.daemon.Decided? then CancelDecided(s) else s
    case Finish =>
      if s.daemon.Reconnecting? && s.daemon.conn < |s.conns| then
        ConnectEndpoint(s, s.conns[s.daemon.conn].endpoint).(daemon := Checking(s.daemon.todo))
      else s
    case StopDaemon => s.(stopped := true)
    case CloseAll => if s.stopped then CloseConnections(s) else s
  }

  function Exec(s: State, es: seq<Event>): State {
    if es == [] then s else Step(Exec(s, es[..|es| - 1]), es[|es| - 1])
  }

  // --------------------------------------------------- at most one live listener

  /** A context ends when it is cancelled or when the daemon's context is. */
  predicate Live(s: State, x: nat) {
    x < |s.owners| && x !in s.cancelled && !s.stopped
  }

  /** A live context of an endpoint. */
  predicate LiveFor(s: State, x: nat, endpoint: int) {
    Live(s, x) && s.owners[x] < |s.conns| && s.conns[s.owners[x]].endpoint == endpoint
  }

  ghost predicate Inv(s: State) {
    && (forall e :: e in s.connections ==> Held(s, e))
    && (forall x :: x in s.cancelled ==> x < |s.owners|)
    && (forall c :: 0 <= c < |s.conns| ==> CancelKnown(s, c))
    && (forall x :: 0 <= x < |s.owners| && x !in s.cancelled ==> Current(s, x))
  }

  predicate CancelKnown(s: State, c: nat)
    requires c < |s.conns|
  {
    s.conns[c].cancel.Some? ==> s.conns[c].cancel.value < |s.owners| && s.owners[s.conns[c].cancel.value] == c
  }

  /** The map's entry is a connection of that endpoint with a cancel function. */
  predicate Held(s: State, e: int)
    requires e in s.connections
  {
    var c := s.connections[e];
    c < |s.conns| && s.conns[c].endpoint == e && s.conns[c].cancel.Some? && s.conns[c].cancel.value < |s.owners|
  }

  /** A context that was not cancelled is the one its connection would cancel, and that connection is in the map. */
  predicate Current(s: State, x: nat)
    requires x < |s.owners|
  {
    var c := s.owners[x];
    && c < |s.conns| && s.conns[c].cancel == Some(x)
    && s.conns[c].endpoint in s.connections && s.connections[s.conns[c].endpoint] == c
  }

  lemma ConnectInv(s: State, endpoint: int)
    requires Inv(s)
    ensures Inv(ConnectEndpoint(s, endpoint))
    ensures var t := ConnectEndpoint(s, endpoint);
            && |t.owners| == |s.owners| + 1 && endpoint in t.connections &&
               t.owners[|s.owners|] == t.connections[endpoint]
            && |s.owners| !in t.cancelled
  {
    var t := ConnectEndpoint(s, endpoint);
    assert endpoint in s.connections ==> Held(s, endpoint);
    forall c | 0 <= c < |t.conns| ensures CancelKnown(t, c) {
      assert c < |s.conns| ==> CancelKnown(s, c);
    }
    assert |s.owners| !in t.cancelled by {
      FreshContext(s, endpoint);
    }
    forall e | e in t.connections ensures Held(t, e) {
      assert e in s.connections ==> Held(s, e);
    }
    forall x | 0 <= x < |t.owners| && x !in t.cancelled ensures Current(t, x) {
      assert x < |s.owners| ==> Current(s, x);
    }
  }

  lemma FreshContext(s: State, endpoint: int)
    requires Inv(s)
    ensures |s.owners| !in ConnectEndpoint(s, endpoint).cancelled
  {
    assert endpoint in s.connections ==> Held(s, endpoint);
  }

  lemma DisconnectInv(s: State, endpoint: int)
    requires Inv(s)
    ensures Inv(DisconnectEndpoint(s, endpoint))
    ensures forall x :: !LiveFor(DisconnectEndpoint(s, endpoint), x, endpoint)
  {
    var t := DisconnectEndpoint(s, endpoint);
    assert endpoint in s.connections ==> Held(s, endpoint);
    forall c | 0 <= c < |t.conns| ensures CancelKnown(t, c) {
      assert c < |s.conns| ==> CancelKnown(s, c);
    }
    forall e | e in t.connections ensures Held(t, e) {
      assert Held(s, e);
    }
    forall x | 0 <= x < |t.owners| && x !in t.cancelled ensures Current(t, x) && !LiveFor(t, x, endpoint) {
      assert Current(s, x);
    }
  }

  lemma CloseInv(s: State)
    requires Inv(s)
    ensures Inv(CloseConnections(s))
  {
    var t := CloseConnections(s);
    forall c | 0 <= c < |t.conns| ensures CancelKnown(t, c) {
      assert c < |s.conns| ==> CancelKnown(s, c);
    }
    forall x | x in t.cancelled ensures x < |t.owners| {
      if x !in s.cancelled {
        var e :| e in s.connections && x == s.conns[s.connections[e]].cancel.value;
        assert Held(s, e);
      }
    }
    forall x | 0 <= x < |t.owners| ensures x in t.cancelled {
      AllEnd(s, x);
    }
  }

  lemma AllEnd(s: State, x: nat)
    requires Inv(s) && x < |s.owners|
    ensures x in s.cancelled + AllCancels(s)
  {
    if x !in s.cancelled {
      assert Current(s, x);
      var e := s.conns[s.owners[x]].endpoint;
      assert s.conns[s.connections[e]].cancel.value in AllCancels(s);
    }
  }

  lemma CancelInv(s: State)
    requires Inv(s) && s.daemon.Decided?
    ensures Inv(CancelDecided(s)) && CancelDecided(s).stopped == s.stopped
  {
    var t := CancelDecided(s);
    assert s.daemon.conn < |s.conns| ==> CancelKnown(s, s.daemon.conn);
    forall x | 0 <= x < |t.owners| && x !in t.cancelled ensures Current(t, x) {
      assert Current(s, x);
    }
    forall e | e in t.connections ensures Held(t, e) {
      assert Held(s, e);
    }
    forall c | 0 <= c < |t.conns| ensures CancelKnown(t, c) {
      assert CancelKnown(s, c);
    }
  }

  /** Flags, the daemon's position and the stop signal do not matter to the contexts. */
  lemma OtherInv(s: State, t: State)
    requires Inv(s) && t.connections == s.connections && t.owners == s.owners && t.cancelled == s.cancelled &&
             |t.conns| == |s.conns|
    requires forall c :: 0 <= c < |s.conns| ==>
             t.conns[c].endpoint == s.conns[c].endpoint && t.conns[c].cancel == s.conns[c].cancel
    ensures Inv(t)
  {
    forall x | 0 <= x < |t.owners| && x !in t.cancelled ensures Current(t, x) {
      assert Current(s, x);
    }
    forall e | e in t.connections ensures Held(t, e) {
      assert Held(s, e);
    }
    forall c | 0 <= c < |t.conns| ensures CancelKnown(t, c) {
      assert CancelKnown(s, c);
    }
  }

  lemma StepInv(s: State, e: Event)
    requires Inv(s)
    ensures Inv(Step(s, e))
    ensures s.stopped ==> Step(s, e).stopped
  {
    hide Inv, ConnectEndpoint, DisconnectEndpoint, CloseConnections, CancelDecided;
    match e
    case Connect(endpoint) =>
      ConnectInv(s, endpoint);
      ConnectKeepsStopped(s, endpoint);
    case Disconnect(endpoint) =>
      DisconnectInv(s, endpoint);
      OthersKeepStopped(s, endpoint);
    case CancelOld =>
      if s.daemon.Decided? {
        CancelInv(s);
      }
    case Finish =>
      if s.daemon.Reconnecting? && s.daemon.conn < |s.conns| {
        var t := ConnectEndpoint(s, s.conns[s.daemon.conn].endpoint);
        ConnectInv(s, s.conns[s.daemon.conn].endpoint);
        ConnectKeepsStopped(s, s.conns[s.daemon.conn].endpoint);
        OtherInv(t, t.(daemon := Checking(s.daemon.todo)));
      }
    case CloseAll =>
      CloseInv(s);
      OthersKeepStopped(s, 0);
    case _ => OtherInv(s, Step(s, e));
  }

  lemma ConnectKeepsStopped(s: State, endpoint: int)
    ensures ConnectEndpoint(s, endpoint).stopped == s.stopped
  {
  }

  lemma OthersKeepStopped(s: State, endpoint: int)
    ensures DisconnectEndpoint(s, endpoint).stopped == s.stopped && CloseConnections(s).stopped == s.stopped
  {
  }

  lemma {:induction false} RunInv(s: State, es: seq<Event>)
    requires Inv(s)
    ensures Inv(Exec(s, es))
    ensures s.stopped ==> Exec(s, es).stopped
  {
    if es != [] {
      hide Step, Inv;
      RunInv(s, es[..|es| - 1]);
      StepInv(Exec(s, es[..|es| - 1]), es[|es| - 1]);
    }
  }

  /**
   In every interleaving an endpoint has at most one live listener context, and that context belongs
   to the connection that the map holds for the endpoint.
   */
  lemma {:induction false} SingleListener(es: seq<Event>, x: nat, y: nat, endpoint: int)
    requires LiveFor(Exec(EMPTY, es), x, endpoint)
    ensures var s := Exec(EMPTY, es);
            && endpoint in s.connections && s.connections[endpoint] == s.owners[x]
            && (LiveFor(s, y, endpoint) ==> y == x)
  {
    hide Exec;
    RunInv(EMPTY, es);
    var s := Exec(EMPTY, es);
    assert Current(s, x);
    assert LiveFor(s, y, endpoint) ==> Current(s, y);
  }

  /** `DisconnectEndpoint` leaves no live context for the endpoint. */
  lemma {:induction false} DisconnectLeavesNone(es: seq<Event>, endpoint: int, x: nat)
    ensures !LiveFor(Step(Exec(EMPTY, es), Disconnect(endpoint)), x, endpoint)
  {
    hide Exec, DisconnectEndpoint;
    RunInv(EMPTY, es);
    DisconnectInv(Exec(EMPTY, es), endpoint);
  }

  /** A connect leaves a live context for the endpoint exactly when the daemon has not been stopped. */
  lemma ConnectRevives(s: State, endpoint: int)
    requires Inv(s)
    ensures (exists x :: LiveFor(ConnectEndpoint(s, endpoint), x, endpoint)) <==> !s.stopped
  {
    hide Inv;
    ConnectInv(s, endpoint);
    var t := ConnectEndpoint(s, endpoint);
    ConnectKeepsStopped(s, endpoint);
    assert Held(t, endpoint) by {
      HeldByInv(t, endpoint);
    }
    hide ConnectEndpoint;
    if !s.stopped {
      assert LiveFor(t, |s.owners|, endpoint);
    }
  }

  lemma HeldByInv(s: State, endpoint: int)
    requires Inv(s) && endpoint in s.connections
    ensures Held(s, endpoint)
  {
  }

  /** The endpoint that an event may connect. */
  predicate Connects(s: State, e: Event, endpoint: int) {
    || (e.Connect? && e.endpoint == endpoint)
    || (e.Finish? && s.daemon.Reconnecting? && s.daemon.conn < |s.conns| && s.conns[s.daemon.conn].endpoint == endpoint)
  }

  /** Only a connect, or the daemon finishing a reconnect, makes a live context where there was none. */
  lemma OnlyConnectsRevive(s: State, e: Event, x: nat, endpoint: int)
    requires Inv(s) && LiveFor(Step(s, e), x, endpoint) && !Connects(s, e, endpoint)
    ensures LiveFor(s, x, endpoint)
  {
    if x < |s.owners| && x !in s.cancelled {
      assert Current(s, x);
    }
  }

  /**
   A daemon that has decided to reconnect brings a disconnected endpoint back, whatever happened in
   between: its last step leaves a live context exactly when the daemon has not been stopped.
   */
  lemma {:induction false} ReconnectRevives(es: seq<Event>)
    requires Exec(EMPTY, es).daemon.Reconnecting? && Exec(EMPTY, es).daemon.conn < |Exec(EMPTY, es).conns|
    ensures var s := Exec(EMPTY, es);
            var endpoint := s.conns[s.daemon.conn].endpoint;
            (exists x :: LiveFor(Step(s, Finish), x, endpoint)) <==> !s.stopped
  {
    hide Exec, ConnectEndpoint;
    RunInv(EMPTY, es);
    var s := Exec(EMPTY, es);
    var endpoint := s.conns[s.daemon.conn].endpoint;
    ConnectRevives(s, endpoint);
    var t, u := ConnectEndpoint(s, endpoint), Step(s, Finish);
    forall x ensures LiveFor(t, x, endpoint) == LiveFor(u, x, endpoint) {
    }
  }

  lemma {:induction false} ExecSnoc(s: State, es: seq<Event>, e: Event)
    ensures Exec(s, es + [e]) == Step(Exec(s, es), e)
  {
    assert (es + [e])[..|es|] == es;
  }

  /** The daemon is stopped exactly from the first stop on. */
  lemma {:induction false} StoppedExactly(es: seq<Event>)
    ensures Exec(EMPTY, es).stopped <==> StopDaemon in es
  {
    if es != [] {
      var front, last := es[..|es| - 1], es[|es| - 1];
      assert es == front + [last];
      StoppedExactly(front);
      StepStops(Exec(EMPTY, front), last);
      hide Step;
    }
  }

  lemma StepStops(s: State, e: Event)
    ensures Step(s, e).stopped <==> s.stopped || e == StopDaemon
  {
    hide ConnectEndpoint, DisconnectEndpoint, CloseConnections, IsScan;
    match e
    case Connect(endpoint) => ConnectKeepsStopped(s, endpoint);
    case Disconnect(endpoint) => OthersKeepStopped(s, endpoint);
    case CloseAll => OthersKeepStopped(s, 0);
    case Finish =>
      if s.daemon.Reconnecting? && s.daemon.conn < |s.conns| {
        ConnectKeepsStopped(s, s.conns[s.daemon.conn].endpoint);
      }
    case _ =>
  }

  /** After the daemon is stopped, hence after `Close`, no later call ever leaves a live context. */
  lemma {:induction false} NoneAfterClose(es: seq<Event>, x: nat)
    requires StopDaemon in es
    ensures !Live(Exec(EMPTY, es), x)
  {
    hide Exec;
    StoppedExactly(es);
  }

  // ------------------------------------------------- how long a disconnect lasts

  predicate InMap(s: State, c: nat)
    requires c < |s.conns|
  {
    s.conns[c].endpoint in s.connections && s.connections[s.conns[c].endpoint] == c
  }

  predicate FlagRight(s: State, c: nat)
    requires c < |s.conns|
  {
    s.conns[c].manual <==> !InMap(s, c)
  }

  predicate DaemonKnown(d: Daemon, n: nat) {
    match d
    case Resting => true
    case Checking(todo) => forall c :: c in todo ==> c < n
    case Passed(c, todo) => c < n && forall c :: c in todo ==> c < n
    case Decided(c, todo) => c < n && forall c :: c in todo ==> c < n
    case Reconnecting(c, todo) => c < n && forall c :: c in todo ==> c < n
  }

  /**
   A connection is marked as manually disconnected exactly when it has left the map, and the daemon holds known
   ones.
   */
  ghost predicate Flagged(s: State) {
    (forall c :: 0 <= c < |s.conns| ==> FlagRight(s, c)) && DaemonKnown(s.daemon, |s.conns|)
  }

  lemma ConnectFlagged(s: State, endpoint: int)
    requires Inv(s) && Flagged(s)
    ensures Flagged(ConnectEndpoint(s, endpoint))
    ensures ConnectEndpoint(s, endpoint).daemon == s.daemon && |ConnectEndpoint(s, endpoint).conns| >= |s.conns|
  {
    var t := ConnectEndpoint(s, endpoint);
    assert endpoint in s.connections ==> Held(s, endpoint);
    forall c | 0 <= c < |t.conns| ensures FlagRight(t, c) {
      assert c < |s.conns| ==> FlagRight(s, c);
    }
  }

  lemma DisconnectFlagged(s: State, endpoint: int)
    requires Inv(s) && Flagged(s)
    ensures Flagged(DisconnectEndpoint(s, endpoint))
  {
    var t := DisconnectEndpoint(s, endpoint);
    assert endpoint in s.connections ==> Held(s, endpoint);
    forall c | 0 <= c < |t.conns| ensures FlagRight(t, c) {
      assert FlagRight(s, c);
    }
  }

  lemma CloseFlagged(s: State)
    requires Inv(s) && Flagged(s)
    ensures Flagged(CloseConnections(s))
  {
    var t := CloseConnections(s);
    forall c | 0 <= c < |t.conns| ensures FlagRight(t, c) {
      assert FlagRight(s, c);
    }
  }

  /** A step that changes neither map nor marks. */
  lemma SameFlags(s: State, t: State)
    requires Flagged(s) && t.connections == s.connections && |t.conns| == |s.conns| && DaemonKnown(t.daemon, |s.conns|)
    requires forall c :: 0 <= c < |s.conns| ==>
             t.conns[c].endpoint == s.conns[c].endpoint && t.conns[c].manual == s.conns[c].manual
    ensures Flagged(t)
  {
    forall c | 0 <= c < |t.conns| ensures FlagRight(t, c) {
      assert FlagRight(s, c);
    }
  }

  lemma MoveKnown(s: State, e: Event)
    requires DaemonKnown(s.daemon, |s.conns|)
    requires e.Listen? || e.Check? || e.Decide? || e.CancelOld? || e.StopDaemon?
    ensures DaemonKnown(Step(s, e).daemon, |s.conns|)
  {
    if s.daemon.Checking? && s.daemon.todo != [] {
      assert forall c :: c in s.daemon.todo[1..] ==> c in s.daemon.todo;
    }
  }

  lemma ScanKnown(s: State, order: seq<nat>)
    requires Inv(s) && IsScan(order, s.connections)
    ensures DaemonKnown(Checking(order), |s.conns|)
  {
    forall c | c in order ensures c < |s.conns| {
      assert Holds(s.connections, c);
      var endpoint :| endpoint in s.connections && s.connections[endpoint] == c;
      assert Held(s, endpoint);
    }
  }

  lemma StepFlagged(s: State, e: Event)
    requires Inv(s) && Flagged(s)
    ensures Flagged(Step(s, e))
  {
    hide Inv, ConnectEndpoint, DisconnectEndpoint, CloseConnections, FlagRight;
    match e
    case Connect(endpoint) => ConnectFlagged(s, endpoint);
    case Disconnect(endpoint) => DisconnectFlagged(s, endpoint);
    case CloseAll => CloseFlagged(s);
    case Finish =>
      if s.daemon.Reconnecting? && s.daemon.conn < |s.conns| {
        ConnectFlagged(s, s.conns[s.daemon.conn].endpoint);
        var t := ConnectEndpoint(s, s.conns[s.daemon.conn].endpoint);
        SameFlags(t, t.(daemon := Checking(s.daemon.todo)));
      }
    case Scan(order) =>
      if s.daemon.Resting? && IsScan(order, s.connections) {
        ScanKnown(s, order);
        SameFlags(s, Step(s, e));
      }
    case _ =>
      MoveKnown(s, e);
      SameFlags(s, Step(s, e));
  }

  /** In every run a connection carries the mark of a manual disconnect exactly when it is not in the map. */
  lemma {:induction false} RunFlagged(s: State, es: seq<Event>)
    requires Inv(s) && Flagged(s)
    ensures Inv(Exec(s, es)) && Flagged(Exec(s, es))
  {
    if es != [] {
      hide Step, Inv, Flagged;
      RunFlagged(s, es[..|es| - 1]);
      StepInv(Exec(s, es[..|es| - 1]), es[|es| - 1]);
      StepFlagged(Exec(s, es[..|es| - 1]), es[|es| - 1]);
    }
  }

  /** The daemon has let a connection of the endpoint pass its first read and has not finished with it. */
  predicate Aimed(s: State, endpoint: int) {
    (s.daemon.Passed? || s.daemon.Decided? || s.daemon.Reconnecting?) &&
    s.daemon.conn < |s.conns| && s.conns[s.daemon.conn].endpoint == endpoint
  }

  /** Out of the map, and out of the daemon's hands. */
  predicate Parted(s: State, endpoint: int) {
    endpoint !in s.connections && !Aimed(s, endpoint)
  }

  /** Nothing but a connect of the endpoint itself brings it back. */
  lemma StepParted(s: State, e: Event, endpoint: int)
    requires Inv(s) && Flagged(s) && Parted(s, endpoint) && e != Connect(endpoint)
    ensures Parted(Step(s, e), endpoint)
  {
    if e.Check? && s.daemon.Checking? && s.daemon.todo != [] {
      var c := s.daemon.todo[0];
      assert c in s.daemon.todo && FlagRight(s, c);
    } else if e.Disconnect? && e.endpoint in s.connections {
      assert Held(s, e.endpoint);
    } else if e.Connect? && e.endpoint in s.connections {
      assert Held(s, e.endpoint);
    } else if e.Finish? && s.daemon.Reconnecting? && s.conns[s.daemon.conn].endpoint in s.connections {
      assert Held(s, s.conns[s.daemon.conn].endpoint);
    }
  }

  lemma {:induction false} RunParted(s: State, es: seq<Event>, endpoint: int)
    requires Inv(s) && Flagged(s) && Parted(s, endpoint) && Connect(endpoint) !in es
    ensures Parted(Exec(s, es), endpoint)
  {
    if es != [] {
      hide Step, Inv, Flagged, Parted;
      var front, last := es[..|es| - 1], es[|es| - 1];
      assert last in es && Connect(endpoint) !in front;
      RunParted(s, front, endpoint);
      RunFlagged(s, front);
      StepParted(Exec(s, front), last, endpoint);
    }
  }

  lemma PartedHasNone(s: State, endpoint: int, x: nat)
    requires Inv(s) && Parted(s, endpoint)
    ensures !LiveFor(s, x, endpoint)
  {
    assert x < |s.owners| && x !in s.cancelled ==> Current(s, x);
  }

  lemma {:induction false} ExecCons(s: State, e: Event, es: seq<Event>)
    ensures Exec(s, [e] + es) == Exec(Step(s, e), es)
    decreases |es|
  {
    hide Step;
    var all := [e] + es;
    if es == [] {
      assert all == [e] && all[..0] == [];
    } else {
      ExecCons(s, e, es[..|es| - 1]);
      assert all[..|all| - 1] == [e] + es[..|es| - 1] && all[|all| - 1] == es[|es| - 1];
    }
  }

  /** The event with which the daemon goes on. */
  function Onwards(s: State): Event {
    match s.daemon
    case Passed(c, _) => if c < |s.conns| && s.conns[c].connected then Listen(c, false) else Decide(true)
    case Decided(_, _) => CancelOld
    case _ => Finish
  }

  /** How far the daemon is from its connect. */
  function Distance(s: State): nat {
    match s.daemon
    case Passed(c, _) => if c < |s.conns| && s.conns[c].connected then 3 else 2
    case Decided(_, _) => 1
    case _ => 0
  }

  /** A daemon that is aimed at an endpoint can bring it back without anyone connecting. */
  lemma {:induction false} WayBack(s: State, endpoint: int) returns (fs: seq<Event>)
    requires Inv(s) && Aimed(s, endpoint) && !s.stopped
    ensures Connect(endpoint) !in fs && exists x :: LiveFor(Exec(s, fs), x, endpoint)
    decreases Distance(s)
  {
    hide Inv, Exec;
    var e := Onwards(s);
    if s.daemon.Reconnecting? {
      ConnectRevives(s, endpoint);
      hide ConnectEndpoint;
      fs := [e];
      var x :| LiveFor(ConnectEndpoint(s, endpoint), x, endpoint);
      assert LiveFor(Step(s, e), x, endpoint);
      ExecNone(Step(s, e));
      assert [e] + [] == [e];
      ExecCons(s, e, []);
    } else {
      StepInv(s, e);
      var more := WayBack(Step(s, e), endpoint);
      fs := [e] + more;
      ExecCons(s, e, more);
    }
  }

  lemma {:induction false} ExecNone(s: State)
    ensures Exec(s, []) == s
  {
  }

  lemma DisconnectParts(s: State, endpoint: int)
    requires Inv(s)
    ensures var t := DisconnectEndpoint(s, endpoint);
            endpoint !in t.connections && (Aimed(t, endpoint) <==> Aimed(s, endpoint)) && t.stopped == s.stopped
  {
    assert endpoint in s.connections ==> Held(s, endpoint);
  }

  /**
   A disconnect lasts, in the sense that whatever happens next no context of the endpoint is live until
   someone connects it again, exactly when the daemon is stopped or does not have the endpoint in hand.
   */
  lemma {:induction false} DisconnectLastsExactly(es: seq<Event>, endpoint: int)
    ensures var s := Exec(EMPTY, es);
            var t := Step(s, Disconnect(endpoint));
            (forall fs, x :: Connect(endpoint) !in fs ==> !LiveFor(Exec(t, fs), x, endpoint)) <==>
            s.stopped || !Aimed(s, endpoint)
  {
    RunFlagged(EMPTY, es);
    hide Exec, Inv, Flagged, DisconnectEndpoint, LiveFor, Aimed;
    var s := Exec(EMPTY, es);
    var t := Step(s, Disconnect(endpoint));
    StepInv(s, Disconnect(endpoint));
    StepFlagged(s, Disconnect(endpoint));
    DisconnectParts(s, endpoint);
    if s.stopped || !Aimed(s, endpoint) {
      forall fs, x | Connect(endpoint) !in fs ensures !LiveFor(Exec(t, fs), x, endpoint) {
        StaysApart(t, fs, endpoint, x);
      }
    } else {
      var fs := WayBack(t, endpoint);
      var x :| LiveFor(Exec(t, fs), x, endpoint);
    }
  }

  lemma {:induction false} StaysApart(t: State, fs: seq<Event>, endpoint: int, x: nat)
    requires Inv(t) && Flagged(t) && endpoint !in t.connections && Connect(endpoint) !in fs
    requires t.stopped || !Aimed(t, endpoint)
    ensures !LiveFor(Exec(t, fs), x, endpoint)
  {
    RunInv(t, fs);
    hide Exec, Inv, Flagged, Aimed;
    if !t.stopped {
      RunParted(t, fs, endpoint);
      PartedHasNone(Exec(t, fs), endpoint, x);
    }
  }

  /** The user's disconnect falls between the daemon's decision and its connect. */
  function UndoneRun(endpoint: int): seq<Event> {
    [Connect(endpoint)] + [Scan([0])] + [Check] + [Decide(true)] + [Disconnect(endpoint)] + [CancelOld] + [Finish]
  }

  /** The endpoint's first connection is in the map. */
  function Joined(endpoint: int, d: Daemon): State {
    State(map[endpoint := 0], [Conn(endpoint, Some(0), false, false)], [0], {}, false, d)
  }

  /** It was disconnected by hand. */
  function Removed(endpoint: int, d: Daemon): State {
    State(map[], [Conn(endpoint, Some(0), false, true)], [0], {0}, false, d)
  }

  /** The states of that run, up to the daemon's connect. */
  function Undone(endpoint: int, n: nat): State {
    if n == 0 then EMPTY
    else if n == 1 then Joined(endpoint, Resting)
    else if n == 2 then Joined(endpoint, Checking([0]))
    else if n == 3 then Joined(endpoint, Passed(0, []))
    else if n == 4 then Joined(endpoint, Decided(0, []))
    else if n == 5 then Removed(endpoint, Decided(0, []))
    else Removed(endpoint, Reconnecting(0, []))
  }

  lemma UndoneStep(endpoint: int, n: nat)
    requires n < 6
    ensures Step(Undone(endpoint, n), UndoneRun(endpoint)[n]) == Undone(endpoint, n + 1)
  {
    assert [0][1..] == [];
    if n == 0 {
      assert map[][endpoint := 0] == map[endpoint := 0];
    } else if n == 1 {
      var m := map[endpoint := 0];
      assert m[endpoint] == 0 && Holds(m, 0);
    } else if n == 4 {
      assert map[endpoint := 0] - {endpoint} == map[];
    }
  }

  lemma UndoneEnds(endpoint: int)
    ensures LiveFor(Step(Undone(endpoint, 6), Finish), 1, endpoint)
  {
  }

  /** Such a run exists: the endpoint is connected once, disconnected after that, and has a live context at the end. */
  lemma DisconnectCanBeUndone(endpoint: int)
    ensures var run := UndoneRun(endpoint);
            && run[4] == Disconnect(endpoint) && Connect(endpoint) !in run[5..]
            && endpoint !in Exec(EMPTY, run[..5]).connections && LiveFor(Exec(EMPTY, run), 1, endpoint)
  {
    var run := UndoneRun(endpoint);
    assert run[5..] == [CancelOld, Finish];
    hide Step, LiveFor, Undone;
    assert Exec(EMPTY, run[..0]) == Undone(endpoint, 0) by { ExecNone(EMPTY); UndoneStarts(endpoint); }
    for i := 0 to 6
      invariant Exec(EMPTY, run[..i]) == Undone(endpoint, i)
      invariant i >= 5 ==> endpoint !in Exec(EMPTY, run[..5]).connections
    {
      ExecSnoc(EMPTY, run[..i], run[i]);
      assert run[..i + 1] == run[..i] + [run[i]];
      UndoneStep(endpoint, i);
      UndoneStarts(endpoint);
    }
    ExecSnoc(EMPTY, run[..6], Finish);
    assert run == run[..6] + [Finish];
    UndoneEnds(endpoint);
  }

  lemma UndoneStarts(endpoint: int)
    ensures Undone(endpoint, 0) == EMPTY && Undone(endpoint, 5).connections == map[]
  {
  }

  /** In every run the daemon lets exactly those connections pass that are still in the map. */
  lemma {:induction false} CheckPassesExactly(es: seq<Event>)
    requires Exec(EMPTY, es).daemon.Checking? && Exec(EMPTY, es).daemon.todo != []
    ensures var s := Exec(EMPTY, es);
            var c, rest := s.daemon.todo[0], s.daemon.todo[1..];
            c < |s.conns| && Step(s, Check).daemon == if InMap(s, c) then Passed(c, rest) else Checking(rest)
  {
    hide Exec;
    RunFlagged(EMPTY, es);
    var s := Exec(EMPTY, es);
    assert s.daemon.todo[0] in s.daemon.todo && FlagRight(s, s.daemon.todo[0]);
  }

  /**
   The last step of `Close` leaves nothing to reconnect: every connection ever made is marked as manually
   disconnected.
   */
  lemma {:induction false} CloseMarksAll(es: seq<Event>, c: nat)
    requires Exec(EMPTY, es).stopped && c < |Exec(EMPTY, es).conns|
    ensures var t := Step(Exec(EMPTY, es), CloseAll);
            t.connections == map[] && |t.conns| == |Exec(EMPTY, es).conns| && t.conns[c].manual
  {
    hide Exec;
    RunFlagged(EMPTY, es);
    assert FlagRight(Exec(EMPTY, es), c);
  }

  // ------------------------------------------------------- what the daemon does

  /** Its four steps for one connection. */
  function Round(due: bool): seq<Event> {
    [Check, Decide(due), CancelOld, Finish]
  }

  lemma {:induction false} ExecRound(s: State, due: bool)
    ensures Exec(s, Round(due)) == Step(Step(Step(Step(s, Check), Decide(due)), CancelOld), Finish)
  {
    hide Step;
    ExecCons(s, Check, [Decide(due), CancelOld, Finish]);
    ExecCons(Step(s, Check), Decide(due), [CancelOld, Finish]);
    ExecCons(Step(Step(s, Check), Decide(due)), CancelOld, [Finish]);
    ExecCons(Step(Step(Step(s, Check), Decide(due)), CancelOld), Finish, []);
    assert Round(due) == [Check] + [Decide(due), CancelOld, Finish];
    assert [Decide(due), CancelOld, Finish] == [Decide(due)] + [CancelOld, Finish];
    assert [CancelOld, Finish] == [CancelOld] + [Finish] && [Finish] == [Finish] + [];
    ExecNone(Step(Step(Step(Step(s, Check), Decide(due)), CancelOld), Finish));
  }

  /** The connection's old context is cancelled, it has a new one, and nothing else has changed. */
  predicate Replaced(s: State, t: State, c: nat)
    requires c < |s.conns|
  {
    && t.owners == s.owners + [c] && t.cancelled == s.cancelled + CancelOf(s.conns, c)
    && t.connections == s.connections && t.stopped == s.stopped && |t.conns| == |s.conns|
    && t.conns[c].cancel == Some(|s.owners|) && !t.conns[c].connected && t.conns[c].endpoint == s.conns[c].endpoint
    && forall d :: 0 <= d < |s.conns| && d != c ==> t.conns[d] == s.conns[d]
  }

  /**
   An undisturbed round reconnects the connection at the head of the daemon's list exactly when it is in the
   map, is not connected and is due: then its old context is cancelled and it gets a new one. Otherwise the
   round does nothing but go on in the list.
   */
  lemma {:induction false} RoundReconnectsExactly(es: seq<Event>, due: bool)
    requires Exec(EMPTY, es).daemon.Checking? && Exec(EMPTY, es).daemon.todo != []
    ensures var s := Exec(EMPTY, es);
            var c, rest := s.daemon.todo[0], s.daemon.todo[1..];
            var t := Exec(s, Round(due));
            && c < |s.conns| && t.daemon == Checking(rest)
            && (InMap(s, c) && !s.conns[c].connected && due ==> Replaced(s, t, c))
            && (!(InMap(s, c) && !s.conns[c].connected && due) ==> t == s.(daemon := Checking(rest)))
  {
    CheckPassesExactly(es);
    RunFlagged(EMPTY, es);
    hide Exec, Flagged;
    ExecRound(Exec(EMPTY, es), due);
  }

  /** Undisturbed rounds for the whole list, and the step that finds it empty. */
  function Sweep(n: nat): seq<Event> {
    if n == 0 then [Check] else Round(true) + Sweep(n - 1)
  }

  lemma {:induction false} ExecConcat(s: State, es: seq<Event>, fs: seq<Event>)
    ensures Exec(s, es + fs) == Exec(Exec(s, es), fs)
  {
    hide Step;
    if fs == [] {
      assert es + fs == es;
    } else {
      var all := es + fs;
      ExecConcat(s, es, fs[..|fs| - 1]);
      assert all[..|all| - 1] == es + fs[..|fs| - 1] && all[|all| - 1] == fs[|fs| - 1];
    }
  }

  /** One round spares every live context but that of the connection it replaces. */
  lemma {:induction false} RoundSpares(es: seq<Event>, x: nat)
    requires Exec(EMPTY, es).daemon.Checking? && Exec(EMPTY, es).daemon.todo != [] && Live(Exec(EMPTY, es), x)
    ensures var s, t := Exec(EMPTY, es), Exec(EMPTY, es + Round(true));
            var c := s.daemon.todo[0];
            && t.daemon == Checking(s.daemon.todo[1..]) && t.stopped == s.stopped
            && x < |t.owners| && t.owners[x] == s.owners[x] && s.owners[x] < |s.conns| == |t.conns|
            && (Live(t, x) <==> s.owners[x] != c || s.conns[c].connected)
            && (Live(t, x) ==> t.conns[s.owners[x]] == s.conns[s.owners[x]])
  {
    ExecConcat(EMPTY, es, Round(true));
    RunFlagged(EMPTY, es);
    RoundReconnectsExactly(es, true);
    hide Exec, Flagged;
    var s := Exec(EMPTY, es);
    assert Current(s, x);
    assert CancelKnown(s, s.daemon.todo[0]);
    hide Inv;
  }

  /**
   When the whole list is worked off undisturbed and everything in it is due, the daemon rests again, and
   the contexts that it has ended are exactly those of the listed connections that were not connected.
   */
  lemma {:induction false} SweepReconnectsExactly(es: seq<Event>, todo: seq<nat>, x: nat)
    requires Exec(EMPTY, es).daemon == Checking(todo) && Live(Exec(EMPTY, es), x)
    ensures var s, t := Exec(EMPTY, es), Exec(EMPTY, es + Sweep(|todo|));
            && t.daemon == Resting && s.owners[x] < |s.conns|
            && (Live(t, x) <==> s.owners[x] !in todo || s.conns[s.owners[x]].connected)
    decreases |todo|
  {
    hide Exec, Round, Sweep, Step;
    OwnerKnown(es, x);
    if todo == [] {
      EmptyListRests(es);
    } else {
      var s, more := Exec(EMPTY, es), es + Round(true);
      RoundSpares(es, x);
      SweepUnfolds(es, |todo|);
      assert s.owners[x] in todo <==> s.owners[x] == todo[0] || s.owners[x] in todo[1..];
      if Live(Exec(EMPTY, more), x) {
        SweepReconnectsExactly(more, todo[1..], x);
      } else {
        SweepEnds(more, todo[1..], x);
      }
    }
  }

  lemma {:induction false} OwnerKnown(es: seq<Event>, x: nat)
    requires Live(Exec(EMPTY, es), x)
    ensures Exec(EMPTY, es).owners[x] < |Exec(EMPTY, es).conns|
  {
    RunInv(EMPTY, es);
    hide Exec;
    assert Current(Exec(EMPTY, es), x);
  }

  lemma {:induction false} EmptyListRests(es: seq<Event>)
    requires Exec(EMPTY, es).daemon == Checking([])
    ensures Exec(EMPTY, es + Sweep(0)) == Exec(EMPTY, es).(daemon := Resting)
  {
    ExecSnoc(EMPTY, es, Check);
    hide Exec;
  }

  lemma SweepUnfolds(es: seq<Event>, n: nat)
    requires n > 0
    ensures es + Sweep(n) == es + Round(true) + Sweep(n - 1)
  {
    hide Round;
  }

  /** A cancelled context stays cancelled while the list is worked off. */
  lemma {:induction false} SweepEnds(es: seq<Event>, todo: seq<nat>, x: nat)
    requires Exec(EMPTY, es).daemon == Checking(todo) && x in Exec(EMPTY, es).cancelled
    ensures Exec(EMPTY, es + Sweep(|todo|)).daemon == Resting && x in Exec(EMPTY, es + Sweep(|todo|)).cancelled
    decreases |todo|
  {
    hide Exec, Round, Sweep, Step;
    if todo == [] {
      EmptyListRests(es);
    } else {
      RoundReconnectsExactly(es, true);
      ExecConcat(EMPTY, es, Round(true));
      SweepUnfolds(es, |todo|);
      SweepEnds(es + Round(true), todo[1..], x);
    }
  }

  /** Once the daemon has cancelled what it decided to reconnect, no context of that connection is live. */
  lemma {:induction false} CancelledIsOver(es: seq<Event>, x: nat)
    requires Exec(EMPTY, es).daemon.Decided? && Live(Step(Exec(EMPTY, es), CancelOld), x)
    ensures Exec(EMPTY, es).owners[x] != Exec(EMPTY, es).daemon.conn
  {
    RunInv(EMPTY, es);
    hide Exec;
    assert Current(Exec(EMPTY, es), x);
  }

  /** The event connects, disconnects or reconnects the connection. */
  predicate Resets(s: State, e: Event, c: nat) {
    c < |s.conns| && InMap(s, c) &&
    var endpoint := s.conns[c].endpoint;
    e == Connect(endpoint) || e == Disconnect(endpoint) || Connects(s, e, endpoint)
  }

  /** What the connection's listener reported last, if it was not connected or disconnected since. */
  predicate ReportedUp(es: seq<Event>, c: nat) {
    es != [] &&
    var front, last := es[..|es| - 1], es[|es| - 1];
    var s := Exec(EMPTY, front);
    if last.Listen? && last.conn == c && c < |s.conns| then last.connected
    else !Resets(s, last, c) && ReportedUp(front, c)
  }

  /** A connection that is connected after a step was so before, unless its listener reported, and was not reset. */
  predicate ConnectedAfter(s: State, t: State, c: nat, reset: bool) {
    |s.conns| <= |t.conns| &&
    (c < |t.conns| && t.conns[c].connected <==> c < |s.conns| && !reset && s.conns[c].connected)
  }

  lemma ConnectResets(s: State, endpoint: int, c: nat)
    requires Inv(s)
    ensures ConnectedAfter(s, ConnectEndpoint(s, endpoint), c,
                           c < |s.conns| && InMap(s, c) && s.conns[c].endpoint == endpoint)
  {
    assert endpoint in s.connections ==> Held(s, endpoint);
  }

  lemma DisconnectResets(s: State, endpoint: int, c: nat)
    requires Inv(s)
    ensures ConnectedAfter(s, DisconnectEndpoint(s, endpoint), c,
                           c < |s.conns| && InMap(s, c) && s.conns[c].endpoint == endpoint)
  {
    assert endpoint in s.connections ==> Held(s, endpoint);
  }

  lemma StepConnected(s: State, e: Event, c: nat)
    requires Inv(s) && Flagged(s)
    ensures var t := Step(s, e);
            && |s.conns| <= |t.conns|
            && (c < |t.conns| && t.conns[c].connected <==>
                c < |s.conns| &&
                if e.Listen? && e.conn == c then e.connected else !Resets(s, e, c) && s.conns[c].connected)
  {
    hide Inv, Flagged, InMap, ConnectEndpoint, DisconnectEndpoint;
    match e
    case Connect(endpoint) => ConnectResets(s, endpoint, c);
    case Disconnect(endpoint) => DisconnectResets(s, endpoint, c);
    case Finish =>
      if s.daemon.Reconnecting? && s.daemon.conn < |s.conns| {
        ConnectResets(s, s.conns[s.daemon.conn].endpoint, c);
      }
    case _ =>
  }

  /**
   In every run a connection counts as connected exactly when its listener's latest report says so and it was
   not connected, disconnected or reconnected since.
   */
  lemma {:induction false} ConnectedExactly(es: seq<Event>, c: nat)
    ensures ReportedUp(es, c) <==> c < |Exec(EMPTY, es).conns| && Exec(EMPTY, es).conns[c].connected
  {
    if es != [] {
      hide Step, Resets, Inv, Flagged;
      var front := es[..|es| - 1];
      ConnectedExactly(front, c);
      RunFlagged(EMPTY, front);
      StepConnected(Exec(EMPTY, front), es[|es| - 1], c);
    }
  }

  /** None of the events that may end the context of a connected endpoint by themselves. */
  predicate Leaves(es: seq<Event>, endpoint: int, c: nat) {
    Connect(endpoint) !in es && Disconnect(endpoint) !in es && Listen(c, false) !in es && StopDaemon !in es
  }

  /** A live context of a connected connection, which the daemon at most has to read once more. */
  predicate Healthy(s: State, x: nat, endpoint: int) {
    && LiveFor(s, x, endpoint) && s.conns[s.owners[x]].connected
    && (Aimed(s, endpoint) ==> s.daemon.Passed? && s.daemon.conn == s.owners[x])
  }

  lemma StepHealthy(s: State, e: Event, x: nat, endpoint: int)
    requires Inv(s) && Flagged(s) && Healthy(s, x, endpoint) && Leaves([e], endpoint, s.owners[x])
    ensures Healthy(Step(s, e), x, endpoint) && Step(s, e).owners[x] == s.owners[x]
  {
    assert e in [e];
    assert Current(s, x);
    match e
    case Connect(other) => ConnectSpares(s, x, other);
    case Disconnect(other) => DisconnectSpares(s, x, other);
    case Check =>
      if s.daemon.Checking? && s.daemon.todo != [] {
        assert s.daemon.todo[0] in s.daemon.todo && FlagRight(s, s.daemon.todo[0]);
      }
    case CancelOld =>
      if s.daemon.Decided? {
        assert CancelKnown(s, s.daemon.conn);
      }
    case Finish =>
      if s.daemon.Reconnecting? {
        ConnectSpares(s, x, s.conns[s.daemon.conn].endpoint);
        hide ConnectEndpoint;
      }
    case _ =>
  }

  /** What another endpoint's connect or disconnect leaves of a connection and its context. */
  predicate Spared(s: State, t: State, x: nat)
    requires x < |s.owners| && s.owners[x] < |s.conns|
  {
    && |t.owners| >= |s.owners| && t.owners[x] == s.owners[x] && |t.conns| >= |s.conns|
    && t.conns[s.owners[x]] == s.conns[s.owners[x]] && t.stopped == s.stopped && t.daemon == s.daemon
    && (x in t.cancelled <==> x in s.cancelled)
    && forall c :: 0 <= c < |s.conns| ==> t.conns[c].endpoint == s.conns[c].endpoint
  }

  lemma ConnectSpares(s: State, x: nat, other: int)
    requires Inv(s) && x < |s.owners| && s.owners[x] < |s.conns| && s.conns[s.owners[x]].endpoint != other
    ensures Spared(s, ConnectEndpoint(s, other), x)
  {
    if other in s.connections {
      assert Held(s, other) && CancelKnown(s, s.connections[other]);
    }
  }

  lemma DisconnectSpares(s: State, x: nat, other: int)
    requires Inv(s) && x < |s.owners| && s.owners[x] < |s.conns| && s.conns[s.owners[x]].endpoint != other
    ensures Spared(s, DisconnectEndpoint(s, other), x)
  {
    if other in s.connections {
      assert Held(s, other) && CancelKnown(s, s.connections[other]);
    }
  }

  lemma {:induction false} RunHealthy(s: State, es: seq<Event>, x: nat, endpoint: int)
    requires Inv(s) && Flagged(s) && Healthy(s, x, endpoint) && Leaves(es, endpoint, s.owners[x])
    ensures Healthy(Exec(s, es), x, endpoint) && Exec(s, es).owners[x] == s.owners[x]
  {
    if es != [] {
      hide Step, Inv, Flagged, Aimed, LiveFor;
      var front, last := es[..|es| - 1], es[|es| - 1];
      assert last in es && Leaves(front, endpoint, s.owners[x]) && Leaves([last], endpoint, s.owners[x]);
      RunHealthy(s, front, x, endpoint);
      RunFlagged(s, front);
      StepHealthy(Exec(s, front), last, x, endpoint);
    }
  }

  /** A daemon that has another connection of the endpoint in hand, or is past its second read, can end the context. */
  lemma {:induction false} WayToEnd(s: State, x: nat, endpoint: int) returns (fs: seq<Event>)
    requires Inv(s) && Aimed(s, endpoint) && x < |s.owners| && s.owners[x] < |s.conns|
    requires s.conns[s.owners[x]].endpoint == endpoint
    requires s.daemon.Passed? ==> s.daemon.conn != s.owners[x]
    ensures Leaves(fs, endpoint, s.owners[x]) && x in Exec(s, fs).cancelled
    decreases Distance(s)
  {
    hide Inv, Exec;
    var e := Onwards(s);
    if s.daemon.Reconnecting? {
      fs := [e];
      ConnectEnds(s, x, endpoint);
      ExecNone(Step(s, e));
      assert [e] + [] == [e];
      ExecCons(s, e, []);
    } else {
      StepInv(s, e);
      var more := WayToEnd(Step(s, e), x, endpoint);
      fs := [e] + more;
      ExecCons(s, e, more);
    }
  }

  /** Connecting an endpoint ends every context it had. */
  lemma ConnectEnds(s: State, x: nat, endpoint: int)
    requires Inv(s) && x < |s.owners| && s.owners[x] < |s.conns| && s.conns[s.owners[x]].endpoint == endpoint
    ensures x in ConnectEndpoint(s, endpoint).cancelled
  {
    assert x !in s.cancelled ==> Current(s, x);
  }

  /**
   A healthy endpoint is left alone: the live context of a connected endpoint outlasts every run in which
   nobody connects or disconnects it, its listener reports no loss and the daemon is not stopped, exactly when
   the daemon has no connection of the endpoint in hand but this one before its second read.
   */
  lemma {:induction false} HealthyLastsExactly(es: seq<Event>, x: nat, endpoint: int)
    requires LiveFor(Exec(EMPTY, es), x, endpoint) && Exec(EMPTY, es).conns[Exec(EMPTY, es).owners[x]].connected
    ensures var s := Exec(EMPTY, es);
            (forall fs :: Leaves(fs, endpoint, s.owners[x]) ==> LiveFor(Exec(s, fs), x, endpoint)) <==>
            !Aimed(s, endpoint) || (s.daemon.Passed? && s.daemon.conn == s.owners[x])
  {
    RunFlagged(EMPTY, es);
    hide Exec, Inv, Flagged, Aimed;
    var s := Exec(EMPTY, es);
    if Healthy(s, x, endpoint) {
      forall fs | Leaves(fs, endpoint, s.owners[x]) ensures LiveFor(Exec(s, fs), x, endpoint) {
        RunHealthy(s, fs, x, endpoint);
      }
    } else {
      var fs := WayToEnd(s, x, endpoint);
      assert !LiveFor(Exec(s, fs), x, endpoint);
    }
  }
}
