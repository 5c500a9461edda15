/** The cache's methods on shared tunnel objects; each is one step of the state machine. */
module TunnelCacheCode {
  import opened Tunnels
  import opened Wrappers
  import opened TunnelCache

  class CachedTunnel {
    const id: int
    const createdAt: int
    var instance: Option<string>
    var name: string
    var sorts: int
    var status: string
    var tcpRx: int
    var tcpTx: int
    var udpRx: int
    var udpTx: int
    var pool: Option<int>
    var ping: Option<int>
    var tcps: Option<int>
    var udps: Option<int>
    var restart: Option<bool>
    var peer: Option<Peer>

    function Copy(): Tunnel
      reads this
    {
      Tunnel(instance, createdAt, name, sorts, status, Counters(tcpRx, tcpTx, udpRx, udpTx),
             pool, ping, tcps, udps, restart, peer)
    }

    /** The text behind the instance pointer, empty for nil. */
    function InstanceName(): string
      reads this
    {
      if instance.Some? then instance.value else ""
    }

    constructor (id: int, t: Tunnel)
      ensures this.id == id && Copy() == t
    {
      this.id, createdAt, instance, name, sorts, status := id, t.createdAt, t.instance, t.name, t.sorts, t.status;
      tcpRx, tcpTx, udpRx, udpTx := t.counters.tcpRx, t.counters.tcpTx, t.counters.udpRx, t.counters.udpTx;
      pool, ping, tcps, udps, restart, peer := t.pool, t.ping, t.tcps, t.udps, t.restart, t.peer;
    }

    method WriteCounters(tcpRx: int, tcpTx: int, udpRx: int, udpTx: int)
      modifies this
      ensures Copy() == old(Copy()).(counters := Counters(tcpRx, tcpTx, udpRx, udpTx))
    {
      this.tcpRx, this.tcpTx, this.udpRx, this.udpTx := tcpRx, tcpTx, udpRx, udpTx;
    }

    method WriteMetrics(pool: Option<int>, ping: Option<int>, tcps: Option<int>, udps: Option<int>)
      modifies this
      ensures Copy() == WithMetrics(old(Copy()), pool, ping, tcps, udps)
    {
      if pool.Some? { this.pool := pool; }
      if ping.Some? { this.ping := ping; }
      if tcps.Some? { this.tcps := tcps; }
      if udps.Some? { this.udps := udps; }
    }

    /** The field switch of `UpdateField`. */
    method WriteField(field: string, value: Value) returns (supported: bool)
      modifies this
      ensures supported == Supported(field)
      ensures Copy() == if supported then WithField(old(Copy()), field, value) else old(Copy())
    {
      if field == "name" {
        if value.Text? { name := value.text; }
      } else if field == "status" {
        if value.Status? { status := value.status; }
      } else if field == "restart" {
        if value.Flag? { restart := Some(value.flag); }
      } else if field == "alias" {
        if value.Text? {
          var found := if peer.None? then Peer(None, None, None) else peer.value;
          peer := Some(found.(alias := Some(value.text)));
        }
      } else if field == "sorts" {
        if value.Number? { sorts := value.number; }
      } else {
        return false;
      }
      return true;
    }
  }

  class Database {
    var rows: map<int, Tunnel>
  }

  lemma CopyName(t: CachedTunnel)
    ensures NameOf(t.Copy()) == t.InstanceName()
  {
  }

  function StampOf(t: CachedTunnel): Stamp {
    Stamp(t.id, t.createdAt)
  }

  function Stamps(ts: seq<CachedTunnel>): (r: seq<Stamp>)
    ensures |r| == |ts| && forall i :: 0 <= i < |ts| ==> r[i] == StampOf(ts[i])
  {
    if ts == [] then [] else Stamps(ts[..|ts| - 1]) + [StampOf(ts[|ts| - 1])]
  }

  function Contents(list: map<int, CachedTunnel>): map<int, Tunnel>
    reads list.Values
  {
    map id | id in list :: list[id].Copy()
  }

  lemma SomeIn(ids: set<int>)
    requires ids != {}
    ensures exists id :: id in ids
  {
    assert (forall id :: id !in ids) ==> ids == {};
  }

  lemma ContentsHas(list: map<int, CachedTunnel>)
    ensures Contents(list).Keys == list.Keys
    ensures forall id :: id in list ==> Contents(list)[id] == list[id].Copy()
  {
  }

  /** One more id of the transaction. */
  lemma WriteOne(rows: map<int, Tunnel>, list: map<int, Tunnel>, written: set<int>, id: int)
    requires id !in written
    ensures var tx := WriteRows(rows, list, written);
            WriteRows(rows, list, written + {id}) ==
            if id in list && id in tx then tx[id := Written(tx[id], list[id])] else tx
  {
    hide Written;
    var tx, more := WriteRows(rows, list, written), WriteRows(rows, list, written + {id});
    assert tx.Keys == rows.Keys == more.Keys;
  }

  lemma WriteNone(rows: map<int, Tunnel>, list: map<int, Tunnel>)
    ensures WriteRows(rows, list, {}) == rows
  {
  }

  /** Sorted objects that are exactly the listed ones give a right view. */
  lemma {:induction false} SortedHolds(list: map<int, CachedTunnel>, sorted: seq<CachedTunnel>)
    requires Descending(sorted) && forall id :: id in list ==> list[id].id == id
    requires forall t :: t in sorted ==> t.id in list && list[t.id] == t
    requires forall id :: id in list ==> list[id] in sorted
    ensures ViewHolds(Contents(list), Stamps(sorted)) && StampsCurrent(Contents(list), Stamps(sorted))
  {
    ContentsHas(list);
    hide Contents;
    var view := Stamps(sorted);
    forall id | id in list ensures Listed(view, id) {
      var i :| 0 <= i < |sorted| && sorted[i] == list[id];
      assert view[i].id == id;
    }
    forall i | 0 <= i < |view|
      ensures view[i].id in list && view[i].createdAt == Contents(list)[view[i].id].createdAt
    {
      assert sorted[i] in sorted;
    }
  }

  /** Only one listed object was written to: the contents change at its id alone. */
  lemma OneChanged(before: map<int, Tunnel>, list: map<int, CachedTunnel>, id: int)
    requires id in list && list.Keys == before.Keys
    requires forall j :: j in list && j != id ==> list[j].Copy() == before[j]
    ensures Contents(list) == before[id := list[id].Copy()]
  {
    assert Contents(list).Keys == before[id := list[id].Copy()].Keys;
  }

  lemma OneAdded(before: map<int, CachedTunnel>, list: map<int, CachedTunnel>, t: CachedTunnel)
    requires list == before[t.id := t]
    ensures Contents(list) == Contents(before)[t.id := t.Copy()]
  {
    assert Contents(list).Keys == Contents(before)[t.id := t.Copy()].Keys;
  }

  lemma OneRemoved(before: map<int, CachedTunnel>, list: map<int, CachedTunnel>, id: int)
    requires list == before - {id}
    ensures Contents(list) == Contents(before) - {id}
  {
    assert Contents(list).Keys == (Contents(before) - {id}).Keys;
  }

  lemma {:induction false} OrderGrows(order: seq<int>, rows: map<int, Tunnel>, pending: set<int>, id: int)
    requires IsOrderOf(order, rows - pending) && id in pending && id in rows
    ensures IsOrderOf(order + [id], rows - (pending - {id}))
    ensures IndexOf(rows, order + [id]) == Indexed(IndexOf(rows, order), NameOf(rows[id]), id)
  {
    assert (order + [id])[..|order|] == order;
  }

  lemma MetricsListed(c: Cache, id: int, pool: Option<int>, ping: Option<int>, tcps: Option<int>, udps: Option<int>)
    ensures CacheStep(c, SetMetrics(id, pool, ping, tcps, udps)) ==
            if id in c.list then Touch(c, id, WithMetrics(c.list[id], pool, ping, tcps, udps)) else c
  {
    hide Touch, WithMetrics;
  }

  lemma ReplaceListed(c: Cache, id: int, t: Tunnel)
    requires id in c.list
    ensures CacheStep(c, Replace(id, t)) ==
            Cache(c.list[id := t],
                  if NameOf(c.list[id]) == NameOf(t) then c.index
                  else Indexed(Unindexed(c.index, NameOf(c.list[id])), NameOf(t), id),
                  c.view, c.dirty + {id}, c.lastPersist, c.interval)
  {
    hide NameOf, Indexed, Unindexed;
  }

  lemma ReplaceUnlisted(c: Cache, id: int, t: Tunnel)
    requires id !in c.list
    ensures CacheStep(c, Replace(id, t)) == c
  {
  }

  lemma {:induction false} NoneOrdered(rows: map<int, Tunnel>)
    ensures IsOrderOf([], rows - rows.Keys) && IndexOf(rows, []) == map[]
  {
  }

  lemma ContentsAre(rows: map<int, Tunnel>, list: map<int, CachedTunnel>)
    requires list.Keys == rows.Keys && forall id :: id in list ==> list[id].Copy() == rows[id]
    ensures Contents(list) == rows
  {
    var c := Contents(list);
    assert c.Keys == list.Keys;
    forall id | id in c ensures c[id] == rows[id] {
      assert c[id] == list[id].Copy();
    }
  }

  /** No id twice, newest first. */
  ghost predicate Descending(ts: seq<CachedTunnel>) {
    forall i, j :: 0 <= i < j < |ts| ==> ts[i].id != ts[j].id && ts[i].createdAt >= ts[j].createdAt
  }

  lemma Between(ts: seq<CachedTunnel>, t: CachedTunnel, k: nat, r: seq<CachedTunnel>, i: nat)
    requires k <= |ts| && r == ts[..k] + [t] + ts[k..] && i < |r|
    ensures r[i] == if i < k then ts[i] else if i == k then t else ts[i - 1]
  {
  }

  lemma InsertedHas(ts: seq<CachedTunnel>, t: CachedTunnel, k: nat)
    requires k <= |ts|
    ensures forall u :: u in ts[..k] + [t] + ts[k..] <==> u in ts || u == t
  {
    assert ts == ts[..k] + ts[k..];
  }

  lemma InsertedDescends(ts: seq<CachedTunnel>, t: CachedTunnel, k: nat)
    requires k <= |ts| && Descending(ts) && forall i :: 0 <= i < |ts| ==> ts[i].id != t.id
    requires k < |ts| ==> ts[k].createdAt < t.createdAt
    requires k > 0 ==> ts[k - 1].createdAt >= t.createdAt
    ensures Descending(ts[..k] + [t] + ts[k..])
  {
    var r := ts[..k] + [t] + ts[k..];
    forall i, j | 0 <= i < j < |r| ensures r[i].id != r[j].id && r[i].createdAt >= r[j].createdAt {
      Between(ts, t, k, r, i);
      Between(ts, t, k, r, j);
    }
  }

  /** `sort.Slice` by creation time, one tunnel at a time. */
  method Insert(ts: seq<CachedTunnel>, t: CachedTunnel) returns (r: seq<CachedTunnel>)
    requires Descending(ts) && forall i :: 0 <= i < |ts| ==> ts[i].id != t.id
    ensures forall u :: u in r <==> u in ts || u == t
    ensures Descending(r)
  {
    var k := |ts|;
    while k > 0 && ts[k - 1].createdAt < t.createdAt
      invariant 0 <= k <= |ts|
      invariant k < |ts| ==> ts[k].createdAt < t.createdAt
    {
      k := k - 1;
    }
    r := ts[..k] + [t] + ts[k..];
    InsertedHas(ts, t, k);
    InsertedDescends(ts, t, k);
  }

  class TunnelShared {
    var list: map<int, CachedTunnel>
    var instanceIDMap: map<string, int>
    var sortedList: seq<CachedTunnel>
    var dirtySet: set<int>
    var lastPersistTime: int
    var persistInterval: int

    /** Every tunnel is listed under its own id, so no object is listed twice. */
    ghost predicate Valid()
      reads this
    {
      forall id :: id in list ==> list[id].id == id
    }

    function Model(): Cache
      reads this, list.Values
    {
      Cache(Contents(list), instanceIDMap, Stamps(sortedList), dirtySet, lastPersistTime, persistInterval)
    }

    /** `sortList`: collects the list in no particular order, then sorts newest first. */
    method SortList()
      requires Valid()
      modifies this`sortedList
      ensures ViewHolds(Model().list, Model().view) && StampsCurrent(Model().list, Model().view)
    {
      hide Contents, Stamps, ViewHolds, StampsCurrent;
      var pending := list.Keys;
      var sorted: seq<CachedTunnel> := [];
      while pending != {}
        invariant pending <= list.Keys
        invariant forall t :: t in sorted ==> t.id in list && list[t.id] == t && t.id !in pending
        invariant forall id :: id in list && id !in pending ==> list[id] in sorted
        invariant Descending(sorted)
        modifies {}
        decreases pending
      {
        SomeIn(pending);
        var id :| id in pending;
        pending := pending - {id};
        sorted := Insert(sorted, list[id]);
      }
      sortedList := sorted;
      SortedHolds(list, sorted);
    }

    method Get(id: int) returns (copy: Option<Tunnel>)
      requires Valid()
      ensures copy == if id in Model().list then Some(Model().list[id]) else None
    {
      if id !in list {
        return None;
      }
      return Some(list[id].Copy());
    }

    /** With a right index, the answer is what a scan of the whole list would find. */
    method GetByInstanceID(instanceID: string) returns (copy: Option<Tunnel>)
      requires Valid()
      ensures IndexAgrees(Model()) && instanceID != "" ==>
              (copy == None <==> forall id :: !Carries(Model().list, id, instanceID))
      ensures IndexAgrees(Model()) && instanceID != "" ==>
              forall id :: Carries(Model().list, id, instanceID) ==> copy == Some(Model().list[id])
    {
      if instanceID !in instanceIDMap {
        ghost var m := Model();
        assert IndexAgrees(m) && instanceID != "" ==>
               forall id :: Carries(m.list, id, instanceID) ==> Maps(m, instanceID, id);
        return None;
      }
      ghost var m := Model();
      assert Maps(m, instanceID, instanceIDMap[instanceID]);
      assert IndexAgrees(m) && instanceID != "" ==>
             forall id :: Carries(m.list, id, instanceID) ==> Maps(m, instanceID, id);
      copy := Get(instanceIDMap[instanceID]);
    }

    method AddTunnel(tunnel: CachedTunnel)
      requires Valid()
      modifies this`list, this`instanceIDMap, this`sortedList
      ensures Valid()
      ensures Model() == CacheStep(old(Model()), Add(tunnel.id, tunnel.Copy(), Model().view))
      ensures list == old(list)[tunnel.id := tunnel] && dirtySet == old(dirtySet)
      ensures ViewHolds(Model().list, Model().view) && StampsCurrent(Model().list, Model().view)
    {
      hide ViewHolds, StampsCurrent, Contents, Stamps;
      OneAdded(list, list[tunnel.id := tunnel], tunnel);
      list := list[tunnel.id := tunnel];
      if tunnel.instance.Some? && tunnel.instance.value != "" {
        instanceIDMap := instanceIDMap[tunnel.instance.value := tunnel.id];
      }
      SortList();
    }

    method DeleteTunnel(id: int)
      requires Valid()
      modifies this`list, this`instanceIDMap, this`sortedList, this`dirtySet
      ensures Valid()
      ensures Model() == CacheStep(old(Model()), Delete(id, Model().view))
      ensures list == old(list) - {id} && dirtySet == old(dirtySet) - {id}
      ensures ViewHolds(Model().list, Model().view) && StampsCurrent(Model().list, Model().view)
    {
      hide ViewHolds, StampsCurrent, Contents, Stamps;
      Unlist(id);
      SortList();
      dirtySet := dirtySet - {id};
    }

    /** Takes the tunnel out of list and index. */
    method Unlist(id: int)
      requires Valid()
      modifies this`list, this`instanceIDMap
      ensures Valid() && list == old(list) - {id}
      ensures Contents(list) == old(Contents(list)) - {id}
      ensures instanceIDMap == old(if id in Contents(list) then Unindexed(instanceIDMap, NameOf(Contents(list)[id]))
                                   else instanceIDMap)
    {
      ContentsHas(list);
      OneRemoved(list, list - {id}, id);
      hide Contents;
      if id in list {
        var instance := list[id].instance;
        list := list - {id};
        if instance.Some? && instance.value != "" {
          instanceIDMap := instanceIDMap - {instance.value};
        }
      } else {
        assert list - {id} == list;
      }
    }

    method UpdateStatus(id: int, status: string)
      requires Valid()
      modifies this`dirtySet, if id in list then {list[id]} else {}
      ensures Valid()
      ensures Model() == CacheStep(old(Model()), SetStatus(id, status))
      ensures if id in old(list) then OneTouched(old(Model()), Model(), id, old(list[id].Copy()).(status := status))
              else Model() == old(Model())
    {
      hide Stamps, OneTouched;
      ContentsHas(list);
      UpdatesStore(Model(), id, status, Counters(0, 0, 0, 0));
      if id !in list {
        return;
      }
      ghost var before := Contents(list);
      var tunnel := list[id];
      tunnel.status := status;
      OneChanged(before, list, id);
      dirtySet := dirtySet + {id};
    }

    /** Reaches the same tunnel as the update by id of whatever the index names. */
    method UpdateStatusByInstanceID(instanceID: string, status: string)
      requires Valid()
      modifies this`dirtySet,
               if instanceID in instanceIDMap && instanceIDMap[instanceID] in list
               then {list[instanceIDMap[instanceID]]} else {}
      ensures Valid()
      ensures instanceID in instanceIDMap ==>
              Model() == CacheStep(old(Model()), SetStatus(instanceIDMap[instanceID], status))
      ensures instanceID !in instanceIDMap ==> Model() == old(Model())
    {
      if instanceID in instanceIDMap {
        UpdateStatus(instanceIDMap[instanceID], status);
      }
    }

    method UpdateTraffic(id: int, tcpRx: int, tcpTx: int, udpRx: int, udpTx: int)
      requires Valid()
      modifies this`dirtySet, if id in list then {list[id]} else {}
      ensures Valid()
      ensures Model() == CacheStep(old(Model()), SetTraffic(id, Counters(tcpRx, tcpTx, udpRx, udpTx)))
      ensures if id in old(list) then
                OneTouched(old(Model()), Model(), id,
                           old(list[id].Copy()).(counters := Counters(tcpRx, tcpTx, udpRx, udpTx)))
              else Model() == old(Model())
    {
      hide OneTouched;
      ContentsHas(list);
      UpdatesStore(Model(), id, "", Counters(tcpRx, tcpTx, udpRx, udpTx));
      if id !in list {
        return;
      }
      ContentsHas(list);
      hide Contents, CachedTunnel.Copy, Stamps;
      ghost var before := Contents(list);
      var tunnel := list[id];
      tunnel.WriteCounters(tcpRx, tcpTx, udpRx, udpTx);
      OneChanged(before, list, id);
      dirtySet := dirtySet + {id};
    }

    method UpdateMetrics(id: int, pool: Option<int>, ping: Option<int>, tcps: Option<int>, udps: Option<int>)
      requires Valid()
      modifies this`dirtySet, if id in list then {list[id]} else {}
      ensures Valid()
      ensures Model() == CacheStep(old(Model()), SetMetrics(id, pool, ping, tcps, udps))
      ensures if id in old(list) then
                && id in list && OneTouched(old(Model()), Model(), id, list[id].Copy())
                && MetricsWritten(old(list[id].Copy()), list[id].Copy(), pool, ping, tcps, udps)
              else Model() == old(Model())
    {
      hide OneTouched, MetricsWritten;
      ContentsHas(list);
      MetricsStore(Model(), id, pool, ping, tcps, udps);
      if id !in list {
        return;
      }
      ContentsHas(list);
      MetricsListed(Model(), id, pool, ping, tcps, udps);
      hide Contents, CachedTunnel.Copy, Stamps, WithMetrics, CacheStep;
      ghost var before := Contents(list);
      var tunnel := list[id];
      tunnel.WriteMetrics(pool, ping, tcps, udps);
      OneChanged(before, list, id);
      dirtySet := dirtySet + {id};
    }

    method UpdateField(id: int, field: string, value: Value)
      requires Valid()
      modifies this`dirtySet, if id in list then {list[id]} else {}
      ensures Valid()
      ensures Model() == CacheStep(old(Model()), SetField(id, field, value))
      ensures if id in old(list) && field in {"name", "status", "restart", "alias", "sorts"} then
                && id in list && OneTouched(old(Model()), Model(), id, list[id].Copy())
                && FieldWritten(old(list[id].Copy()), list[id].Copy(), field, value)
              else Model() == old(Model())
    {
      hide OneTouched, FieldWritten;
      FieldStores(Model(), id, field, value);
      ContentsHas(list);
      hide Contents, CachedTunnel.Copy, WithField, Supported, Stamps;
      if id !in list {
        return;
      }
      ghost var before := Contents(list);
      var supported := list[id].WriteField(field, value);
      OneChanged(before, list, id);
      if !supported {
        return;
      }
      dirtySet := dirtySet + {id};
    }

    /** The sorted view keeps the replaced object. */
    method UpdateFullTunnel(tunnel: CachedTunnel)
      requires Valid()
      modifies this`list, this`instanceIDMap, this`dirtySet
      ensures Valid()
      ensures Model() == CacheStep(old(Model()), Replace(tunnel.id, tunnel.Copy()))
      ensures tunnel.id in old(list) ==>
                list == old(list)[tunnel.id := tunnel] && dirtySet == old(dirtySet) + {tunnel.id}
      ensures tunnel.id !in old(list) ==> list == old(list) && dirtySet == old(dirtySet)
    {
      ghost var before := Model();
      hide CacheStep, Contents, Stamps, Indexed, Unindexed, CachedTunnel.Copy, CachedTunnel.InstanceName, NameOf;
      ContentsHas(list);
      if tunnel.id !in list {
        ReplaceUnlisted(before, tunnel.id, tunnel.Copy());
        return;
      }
      ReplaceListed(before, tunnel.id, tunnel.Copy());
      OneAdded(list, list[tunnel.id := tunnel], tunnel);
      CopyName(list[tunnel.id]);
      CopyName(tunnel);
      var oldInstanceID := list[tunnel.id].InstanceName();
      list := list[tunnel.id := tunnel];
      var newInstanceID := tunnel.InstanceName();
      Rename(oldInstanceID, newInstanceID, tunnel.id);
      dirtySet := dirtySet + {tunnel.id};
    }

    /** Moves the index entry of a replaced tunnel. */
    method Rename(oldInstanceID: string, newInstanceID: string, id: int)
      modifies this`instanceIDMap
      ensures instanceIDMap == old(if oldInstanceID == newInstanceID then instanceIDMap
                                   else Indexed(Unindexed(instanceIDMap, oldInstanceID), newInstanceID, id))
    {
      if oldInstanceID != newInstanceID {
        if oldInstanceID != "" {
          instanceIDMap := instanceIDMap - {oldInstanceID};
        }
        if newInstanceID != "" {
          instanceIDMap := instanceIDMap[newInstanceID := id];
        }
      }
    }

    /** The transaction works on a copy of the table and either replaces it or fails. */
    method PersistIfNeeded(db: Database, now: int, commits: bool) returns (failed: bool)
      requires Valid()
      modifies this`dirtySet, this`lastPersistTime, db
      ensures Valid()
      ensures State(Model(), db.rows) == PersistRows(old(State(Model(), db.rows)), now, commits)
      ensures failed == PersistFails(old(State(Model(), db.rows)), now, commits)
    {
      hide Contents, Stamps, WriteRows, Written;
      if now - lastPersistTime < persistInterval {
        return false;
      }
      if dirtySet == {} {
        lastPersistTime := now;
        return false;
      }
      var pending := dirtySet;
      var tx := db.rows;
      ContentsHas(list);
      WriteNone(db.rows, Contents(list));
      assert dirtySet - pending == {};
      while pending != {}
        invariant pending <= dirtySet
        invariant tx == WriteRows(db.rows, Contents(list), dirtySet - pending)
        modifies {}
        decreases pending
      {
        SomeIn(pending);
        var id :| id in pending;
        WriteOne(db.rows, Contents(list), dirtySet - pending, id);
        assert dirtySet - (pending - {id}) == dirtySet - pending + {id};
        pending := pending - {id};
        if id in list && id in tx {
          tx := tx[id := Written(tx[id], list[id].Copy())];
        }
      }
      if !commits {
        return true;
      }
      assert dirtySet - {} == dirtySet;
      db.rows := tx;
      dirtySet := {};
      lastPersistTime := now;
      return false;
    }

    method Force(db: Database, now: int, commits: bool) returns (failed: bool)
      requires Valid()
      modifies this`dirtySet, this`lastPersistTime, this`persistInterval, db
      ensures Valid()
      ensures State(Model(), db.rows) == ForceRows(old(State(Model(), db.rows)), now, commits)
      ensures old(Settled(State(Model(), db.rows)) && now >= lastPersistTime) && !failed ==>
              dirtySet == {} && forall id :: AgreesAt(State(Model(), db.rows), id)
    {
      hide Contents, Stamps, PersistRows, PersistFails, Settled, AgreesAt;
      ghost var before := State(Model(), db.rows);
      var oldInterval := persistInterval;
      persistInterval := 0;
      failed := PersistIfNeeded(db, now, commits);
      persistInterval := oldInterval;
      if Settled(before) && now >= before.cache.lastPersist {
        ForcePersistSettles(before, now, commits);
      }
    }

    /** One pass of the loading loop. */
    method LoadRow(id: int, row: Tunnel)
      modifies this`list, this`instanceIDMap
      ensures id in list && fresh(list[id]) && list[id].id == id && list[id].Copy() == row
      ensures list == old(list)[id := list[id]]
      ensures instanceIDMap == Indexed(old(instanceIDMap), NameOf(row), id)
    {
      var tunnel := new CachedTunnel(id, row);
      list := list[id := tunnel];
      if tunnel.instance.Some? && tunnel.instance.value != "" {
        instanceIDMap := instanceIDMap[tunnel.instance.value := id];
      }
    }

    /** The rows arrive in an order the caller cannot choose. */
    method LoadFromDB(db: Database) returns (order: seq<int>)
      modifies this`list, this`instanceIDMap
      ensures Valid() && forall id :: id in list ==> fresh(list[id])
      ensures IsOrderOf(order, db.rows)
      ensures Contents(list) == db.rows && instanceIDMap == IndexOf(db.rows, order)
    {
      hide Contents, IsOrderOf, IndexOf, Indexed, NameOf;
      NoneOrdered(db.rows);
      order := [];
      var pending := db.rows.Keys;
      list, instanceIDMap := map[], map[];
      while pending != {}
        invariant pending <= db.rows.Keys && Valid()
        invariant list.Keys == db.rows.Keys - pending
        invariant forall id :: id in list ==> fresh(list[id]) && list[id].Copy() == db.rows[id]
        invariant IsOrderOf(order, db.rows - pending) && forall id :: id in order ==> id in db.rows
        invariant instanceIDMap == IndexOf(db.rows, order)
        modifies this`list, this`instanceIDMap
        decreases pending
      {
        SomeIn(pending);
        var id :| id in pending;
        OrderGrows(order, db.rows, pending, id);
        pending := pending - {id};
        LoadRow(id, db.rows[id]);
        order := order + [id];
      }
      ContentsAre(db.rows, list);
      assert db.rows - {} == db.rows;
    }

    method ReloadAll(db: Database, loads: bool) returns (order: seq<int>)
      requires Valid()
      modifies this`list, this`instanceIDMap, this`sortedList, this`dirtySet
      ensures Valid()
      ensures loads ==> IsOrderOf(order, db.rows)
      ensures State(Model(), db.rows) == ReloadRows(old(State(Model(), db.rows)), order, Model().view, loads)
      ensures loads ==> ViewHolds(Model().list, Model().view) && StampsCurrent(Model().list, Model().view)
    {
      order := [];
      if !loads {
        return;
      }
      hide IsOrderOf, IndexOf;
      order := LoadFromDB(db);
      SortList();
      dirtySet := {};
    }
  }
}
