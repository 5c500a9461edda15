/** The manager's methods on shared connection objects. */
module SseManagerCode {
  import opened Wrappers
  import opened SseManager

  class EndpointConnection {
    const endpointID: int
    /** Its place among all connections ever made. */
    const serial: nat
    var cancel: Option<nat>
    var isConnected: bool
    var manuallyDisconnected: bool

    constructor (endpointID: int, serial: nat)
      ensures this.endpointID == endpointID && this.serial == serial
      ensures Copy() == Conn(endpointID, None, false, false)
    {
      this.endpointID, this.serial := endpointID, serial;
      cancel, isConnected, manuallyDisconnected := None, false, false;
    }

    function Copy(): Conn
      reads this
    {
      Conn(endpointID, cancel, isConnected, manuallyDisconnected)
    }
  }

  function Copies(made: seq<EndpointConnection>): (r: seq<Conn>)
    reads made
    ensures |r| == |made| && forall i :: 0 <= i < |made| ==> r[i] == made[i].Copy()
  {
    seq(|made|, i requires 0 <= i < |made| reads made => made[i].Copy())
  }

  class Manager {
    var connections: map<int, EndpointConnection>
    /** Every connection ever made, for the daemon may still hold one that left the map. */
    var made: seq<EndpointConnection>
    var owners: seq<nat>
    var cancelled: set<nat>
    var stopped: bool

    ghost predicate Valid()
      reads this, made
    {
      && (forall i :: 0 <= i < |made| ==> made[i].serial == i)
      && (forall e :: e in connections ==>
          connections[e] in made && connections[e].endpointID == e && connections[e].cancel.Some?)
    }

    function Serials(): map<int, nat>
      reads this
    {
      map e | e in connections :: connections[e].serial
    }

    /** The model's state, given where the reconnect daemon stands. */
    function Model(daemon: Daemon): State
      reads this, made
    {
      State(Serials(), Copies(made), owners, cancelled, stopped, daemon)
    }

    constructor ()
      ensures Valid() && Model(Resting) == EMPTY
    {
      connections, made, owners, cancelled, stopped := map[], [], [], {}, false;
      new;
      assert Serials() == map[];
    }

    /** The common end of both branches of a connect: a new context under the daemon's. */
    method AttachTo(conn: EndpointConnection)
      requires conn in made && forall i :: 0 <= i < |made| ==> made[i].serial == i
      modifies this`owners, conn
      ensures conn.cancel.Some?
      ensures forall d :: Model(d) == SseManager.Attach(old(Model(d)), conn.serial)
    {
      conn.cancel := Some(|owners|);
      conn.manuallyDisconnected := false;
      owners := owners + [conn.serial];
      assert Copies(made) == old(Copies(made))[conn.serial := conn.Copy()];
    }

    /** A new connection enters the map, without a context yet. */
    method Create(endpointID: int)
      requires Valid()
      modifies this`made, this`connections
      ensures |made| == |old(made)| + 1 && made[..|old(made)|] == old(made) && fresh(made[|old(made)|])
      ensures forall i :: 0 <= i < |made| ==> made[i].serial == i
      ensures connections == old(connections)[endpointID := made[|old(made)|]] &&
              made[|old(made)|].endpointID == endpointID
      ensures Copies(made) == old(Copies(made)) + [Conn(endpointID, None, false, false)]
      ensures Serials() == old(Serials())[endpointID := |old(made)|]
    {
      var created := new EndpointConnection(endpointID, |made|);
      made := made + [created];
      connections := connections[endpointID := created];
      assert Copies(made) == old(Copies(made)) + [created.Copy()];
    }

    method ConnectTo(endpointID: int)
      requires Valid()
      modifies this, made
      ensures Valid() && |made| >= |old(made)| && made[..|old(made)|] == old(made) && fresh(made[|old(made)|..])
      ensures forall d :: Model(d) == SseManager.ConnectEndpoint(old(Model(d)), endpointID)
    {
      hide SseManager.Attach;
      if endpointID in connections {
        var existing := connections[endpointID];
        cancelled := cancelled + {existing.cancel.value};
        existing.isConnected := false;
        assert Copies(made) == old(Copies(made))[existing.serial := existing.Copy()];
      } else {
        Create(endpointID);
      }
      AttachTo(connections[endpointID]);
    }

    /** A due check and `reconnectEndpoint` with nothing in between: two reads, a cancellation, then a connect. */
    method Reconnect(conn: EndpointConnection, todo: seq<nat>)
      requires Valid() && conn in made && !conn.isConnected && !conn.manuallyDisconnected
      modifies this, made
      ensures Valid()
      ensures Model(Checking(todo)) ==
              Step(Step(Step(Step(old(Model(Checking([conn.serial] + todo))), Check), Decide(true)), CancelOld), Finish)
    {
      hide SseManager.ConnectEndpoint;
      ghost var before := Model(Checking([conn.serial] + todo));
      assert before.conns[conn.serial] == conn.Copy();
      assert ([conn.serial] + todo)[1..] == todo;
      if conn.cancel.Some? {
        cancelled := cancelled + {conn.cancel.value};
      }
      assert Model(Reconnecting(conn.serial, todo)) == Step(Step(Step(before, Check), Decide(true)), CancelOld);
      ghost var between := Model(Reconnecting(conn.serial, todo));
      ConnectTo(conn.endpointID);
      assert Model(Reconnecting(conn.serial, todo)) == SseManager.ConnectEndpoint(between, conn.endpointID);
    }

    method Stop()
      modifies this`stopped
      ensures forall d :: Model(d) == Step(old(Model(d)), StopDaemon)
    {
      stopped := true;
    }

    /** The part of a disconnect that touches the connection object. */
    method MarkDisconnected(conn: EndpointConnection)
      requires conn in made && forall i :: 0 <= i < |made| ==> made[i].serial == i
      modifies conn
      ensures conn.cancel == old(conn.cancel)
      ensures Copies(made) == old(Copies(made))[conn.serial := old(conn.Copy()).(manual := true, connected := false)]
    {
      conn.manuallyDisconnected := true;
      conn.isConnected := false;
      assert Copies(made) == old(Copies(made))[conn.serial := conn.Copy()];
    }

    method Disconnect(endpointID: int)
      requires Valid()
      modifies this, made
      ensures Valid() && made == old(made)
      ensures forall d :: Model(d) == SseManager.DisconnectEndpoint(old(Model(d)), endpointID)
    {
      hide Copies;
      if endpointID in connections {
        var conn := connections[endpointID];
        MarkDisconnected(conn);
        cancelled := cancelled + {conn.cancel.value};
        connections := connections - {endpointID};
        assert Serials() == old(Serials()) - {endpointID};
      }
    }

    /** Part way through `Close`: the given endpoints are marked and cancelled. */
    ghost predicate Closing(before: State, done: set<int>)
      reads this, made
    {
      && Serials() == before.connections && |made| == |before.conns| && owners == before.owners &&
         stopped == before.stopped
      && cancelled == before.cancelled + CancelsOf(before, done)
      && forall i :: 0 <= i < |made| ==> made[i].Copy() == Marked(before, done, i)
    }

    method CloseOne(endpointID: int, ghost before: State, ghost done: set<int>)
      requires Valid() && endpointID in connections && endpointID !in done && Closing(before, done)
      modifies this`cancelled, connections[endpointID]
      ensures Valid() && Closing(before, done + {endpointID})
    {
      var conn := connections[endpointID];
      assert before.connections[endpointID] == conn.serial;
      assert conn.Copy() == Marked(before, done, conn.serial);
      MoreCancels(before, done, endpointID);
      MoreMarks(before, done, endpointID);
      hide CancelsOf, Marked;
      conn.manuallyDisconnected := true;
      cancelled := cancelled + {conn.cancel.value};
      forall i | 0 <= i < |made| ensures made[i].Copy() == Marked(before, done + {endpointID}, i) {
        assert made[i] == conn <==> i == conn.serial;
      }
    }

    method DropAll(ghost before: State)
      requires Valid() && stopped && before.stopped && before.daemon == Resting && Closing(before, connections.Keys)
      modifies this`connections
      ensures Valid()
      ensures Model(Resting) == CloseConnections(before)
    {
      hide CancelsOf, Marked, AllCancels, SseManager.CloseConnections;
      AllCancelled(before);
      assert connections.Keys == before.connections.Keys;
      connections := map[];
      assert Copies(made) == CloseConnections(before).conns;
      assert Serials() == map[];
    }

    /** `Close` once the daemons are gone: every connection is marked and cancelled, then the map is replaced. */
    method CloseAllConnections()
      requires Valid() && stopped
      modifies this, made
      ensures Valid() && made == old(made)
      ensures Model(Resting) == Step(old(Model(Resting)), CloseAll)
    {
      hide CancelsOf, Marked, AllCancels, SseManager.CloseConnections;
      ghost var before := Model(Resting);
      NoneYet(before);
      var pending := connections.Keys;
      assert connections.Keys - pending == {};
      while pending != {}
        invariant pending <= connections.Keys && Valid()
        invariant connections == old(connections) && made == old(made) && stopped
        invariant Closing(before, connections.Keys - pending)
        decreases pending
      {
        hide *;
        var endpointID := PickOne(pending);
        CloseOne(endpointID, before, connections.Keys - pending);
        assert connections.Keys - (pending - {endpointID}) == connections.Keys - pending + {endpointID};
        pending := pending - {endpointID};
      }
      assert connections.Keys - {} == connections.Keys;
      DropAll(before);
    }
  }

  method PickOne(s: set<int>) returns (x: int)
    requires s != {}
    ensures x in s
  {
    assert (forall y :: y !in s) ==> s == {};
    x :| x in s;
  }

  /** The contexts of the given endpoints' connections. */
  ghost function CancelsOf(s: State, done: set<int>): set<nat> {
    set e | e in done && e in s.connections && s.connections[e] < |s.conns| && s.conns[s.connections[e]].cancel.Some? ::
      s.conns[s.connections[e]].cancel.value
  }

  /** A connection record after the given endpoints have been marked. */
  ghost function Marked(s: State, done: set<int>, i: nat): Conn
    requires i < |s.conns|
  {
    var c := s.conns[i];
    if c.endpoint in done && c.endpoint in s.connections && s.connections[c.endpoint] == i then c.(manual := true)
      else c
  }

  lemma MoreCancels(s: State, done: set<int>, e: int)
    requires e in s.connections && s.connections[e] < |s.conns| && s.conns[s.connections[e]].cancel.Some?
    ensures CancelsOf(s, done + {e}) == CancelsOf(s, done) + {s.conns[s.connections[e]].cancel.value}
  {
  }

  lemma MoreMarks(s: State, done: set<int>, e: int)
    requires e in s.connections && s.connections[e] < |s.conns| && s.conns[s.connections[e]].endpoint == e
    ensures forall i :: 0 <= i < |s.conns| ==>
              Marked(s, done + {e}, i) == if i == s.connections[e] then Marked(s, done, i).(manual := true)
                else Marked(s, done, i)
  {
  }

  lemma AllCancelled(s: State)
    ensures CancelsOf(s, s.connections.Keys) == AllCancels(s)
    ensures CloseConnections(s) == s.(cancelled := s.cancelled + AllCancels(s), connections := map[],
                                      conns := CloseConnections(s).conns)
    ensures |CloseConnections(s).conns| == |s.conns|
    ensures forall i :: 0 <= i < |s.conns| ==> Marked(s, s.connections.Keys, i) == CloseConnections(s).conns[i]
  {
  }

  lemma NoneYet(s: State)
    ensures CancelsOf(s, {}) == {} && forall i :: 0 <= i < |s.conns| ==> Marked(s, {}, i) == s.conns[i]
  {
  }
}
