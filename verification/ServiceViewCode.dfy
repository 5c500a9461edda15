/** The event handlers on the two tables; one event is one step of the model. */
module ServiceViewCode {
  import opened Wrappers
  import opened ServiceView

  predicate IsFirst(rows: seq<Row>, i: nat, k: Key, role: Role)
    requires i < |rows|
  {
    Matches(rows[i], k, role) && forall j :: 0 <= j < i ==> !Matches(rows[j], k, role)
  }

  /** `db.Where(...).First(&tunnel)`: the first matching row in primary-key order. */
  method FindEnd(rows: seq<Row>, k: Key, role: Role) returns (found: Option<Row>)
    ensures found == FirstOf(rows, k, role)
    ensures found.None? ==> forall r :: r in rows ==> !Matches(r, k, role)
    ensures found.Some? ==> exists i :: 0 <= i < |rows| && IsFirst(rows, i, k, role) && found.value == rows[i]
  {
    found := None;
    for i := 0 to |rows|
      invariant found == FirstOf(rows[..i], k, role)
      invariant found.None? ==> forall j :: 0 <= j < i ==> !Matches(rows[j], k, role)
      invariant found.Some? ==> exists j :: 0 <= j < i && IsFirst(rows, j, k, role) && found.value == rows[j]
    {
      assert rows[..i + 1][..i] == rows[..i];
      if found.None? && Matches(rows[i], k, role) {
        assert IsFirst(rows, i, k, role);
        found := Some(rows[i]);
      }
    }
    assert rows[..|rows|] == rows;
  }

  /** `COALESCE(MAX(sorts), -1)`. */
  method LargestSorts(services: seq<Service>) returns (max: int)
    ensures max == MaxSorts(services)
    ensures services == [] ==> max == -1
    ensures forall i :: 0 <= i < |services| ==> services[i].sorts <= max
  {
    if |services| == 0 {
      return -1;
    }
    max := services[0].sorts;
    assert services[..1] == [services[0]];
    for i := 1 to |services|
      invariant max == MaxSorts(services[..i])
      invariant forall j :: 0 <= j < i ==> services[j].sorts <= max
    {
      assert services[..i + 1][..i] == services[..i];
      if services[i].sorts > max {
        max := services[i].sorts;
      }
    }
    assert services[..|services|] == services;
  }

  class SseService {
    /** The tables. */
    var tunnels: seq<Row>
    var services: seq<Service>

    function Model(): State
      reads this
    {
      State(tunnels, services)
    }

    method HandleEvent(e: Event)
      modifies this
      ensures Model() == Step(old(Model()), e)
      ensures old(Right(Model()) && Fair(Model(), e)) ==> (Right(Model()) <==> old(Recounted(Model(), e)))
    {
      hide Upsert, Locate, Merged, Right, Fair, Recounted;
      ghost var before := Model();
      if Right(before) && Fair(before, e) {
        StepIsRightExactly(before, e);
      }
      var i := Locate(tunnels, e.report.endpoint, e.report.instance);
      if e.how == Initial && !e.typed {
        return;
      }
      if e.how == Update && i < 0 {
        return;
      }
      if i < 0 {
        tunnels := tunnels + [e.report];
      } else {
        tunnels := tunnels[i := Merged(e.how, tunnels[i], e.report)];
      }
      UpsertService(e.report);
    }

    method UpsertService(tunnel: Row)
      modifies this`services
      ensures services == Upsert(old(services), tunnels, tunnel)
    {
      hide FirstOf, MaxSorts, ServiceAt;
      if tunnel.peer.None? || tunnel.peer.value.sid.None? || tunnel.peer.value.sid.value == "" {
        return;
      }
      var peer := tunnel.peer.value;
      if peer.kind.None? || peer.kind.value == "" {
        return;
      }
      var key := Key(peer.sid.value, peer.kind.value);
      var rx, tx := 0, 0;
      if OneEnded(key.kind) {
        if tunnel.role == Server {
          return;
        }
        rx, tx := tunnel.tcpRx + tunnel.udpRx, tunnel.tcpTx + tunnel.udpTx;
      } else if TwoEnded(key.kind) {
        rx, tx := tunnel.tcpRx + tunnel.udpRx, tunnel.tcpTx + tunnel.udpTx;
        var otherRole := if tunnel.role == Server then Client else Server;
        var other := FindEnd(tunnels, key, otherRole);
        if other.Some? {
          rx := rx + other.value.tcpRx + other.value.udpRx;
          tx := tx + other.value.tcpTx + other.value.udpTx;
        }
      }
      StoreService(key, rx, tx);
    }

    /** Insert, or update of the kind's columns on conflict. */
    method StoreService(key: Key, rx: int, tx: int)
      modifies this`services
      ensures services == Store(old(services), key, rx, tx)
    {
      hide MaxSorts;
      var at := ServiceAt(services, key);
      if at < 0 {
        var maxSorts := LargestSorts(services);
        services := services + [Service(key, rx, tx, maxSorts + 1)];
      } else if OneEnded(key.kind) || TwoEnded(key.kind) {
        services := services[at := services[at].(rx := rx, tx := tx)];
      }
    }
  }
}
