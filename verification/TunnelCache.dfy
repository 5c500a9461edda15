/**
 The tunnel cache as a state machine: tunnels by id, an index from instance to id, a view sorted
 by creation time, and the set of tunnels whose database row is still to be written.
 */
module TunnelCache {
  import opened Tunnels
  import opened Wrappers

  datatype Tunnel = Tunnel(instance: Option<string>, createdAt: int, name: string, sorts: int,
                           status: string, counters: Counters,
                           pool: Option<int>, ping: Option<int>, tcps: Option<int>, udps: Option<int>,
                           restart: Option<bool>, peer: Option<Peer>)

  /** What the sorted view is ordered by. A stamp is taken when the view is rebuilt. */
  datatype Stamp = Stamp(id: int, createdAt: int)

  datatype Cache = Cache(list: map<int, Tunnel>, index: map<string, int>, view: seq<Stamp>, dirty: set<int>,
                         lastPersist: int, interval: int)

  /** The cache beside the table `tunnels`. */
  datatype State = State(cache: Cache, rows: map<int, Tunnel>)

  /** The dynamic value handed to `UpdateField`. */
  datatype Value = Text(text: string) | Status(status: string) | Flag(flag: bool) | Number(number: int)

  datatype Event =
    | InsertRow(id: int, row: Tunnel)
    | RemoveRow(id: int)
    | Add(id: int, tunnel: Tunnel, view: seq<Stamp>)
    | Delete(id: int, view: seq<Stamp>)
    | SetStatus(id: int, status: string)
    | SetTraffic(id: int, counters: Counters)
    | SetMetrics(id: int, pool: Option<int>, ping: Option<int>, tcps: Option<int>, udps: Option<int>)
    | SetField(id: int, field: string, value: Value)
    | Replace(id: int, tunnel: Tunnel)
    | Persist(now: int, commits: bool)
    | ForcePersist(now: int, commits: bool)
    | Reload(order: seq<int>, view: seq<Stamp>, loads: bool)

  // -------------------------------------------------------------- operations

  function Newer(given: Option<int>, kept: Option<int>): Option<int> {
    if given.Some? then given else kept
  }

  function WithMetrics(t: Tunnel, pool: Option<int>, ping: Option<int>, tcps: Option<int>, udps: Option<int>): Tunnel {
    t.(pool := Newer(pool, t.pool), ping := Newer(ping, t.ping), tcps := Newer(tcps, t.tcps),
       udps := Newer(udps, t.udps))
  }

  function WithAlias(peer: Option<Peer>, alias: string): Peer {
    match peer
    case None => Peer(None, None, Some(alias))
    case Some(p) => p.(alias := Some(alias))
  }

  predicate Supported(field: string) {
    field == "name" || field == "status" || field == "restart" || field == "alias" || field == "sorts"
  }

  /** A value of the wrong type changes nothing. */
  function WithField(t: Tunnel, field: string, value: Value): Tunnel {
    if field == "name" && value.Text? then t.(name := value.text)
    else if field == "status" && value.Status? then t.(status := value.status)
    else if field == "restart" && value.Flag? then t.(restart := Some(value.flag))
    else if field == "alias" && value.Text? then t.(peer := Some(WithAlias(t.peer, value.text)))
    else if field == "sorts" && value.Number? then t.(sorts := value.number)
    else t
  }

  /** Stores a new value under a listed id and marks it dirty. */
  function Touch(c: Cache, id: int, t: Tunnel): Cache {
    c.(list := c.list[id := t], dirty := c.dirty + {id})
  }

  /** A missing and an empty instance id are both unindexed. */
  function NameOf(t: Tunnel): string {
    if t.instance.Some? then t.instance.value else ""
  }

  function Indexed(index: map<string, int>, name: string, id: int): map<string, int> {
    if name == "" then index else index[name := id]
  }

  function Unindexed(index: map<string, int>, name: string): map<string, int> {
    if name == "" then index else index - {name}
  }

  function AddTunnel(c: Cache, id: int, t: Tunnel, view: seq<Stamp>): Cache {
    c.(list := c.list[id := t], index := Indexed(c.index, NameOf(t), id), view := view)
  }

  function DeleteTunnel(c: Cache, id: int, view: seq<Stamp>): Cache {
    var index := if id in c.list then Unindexed(c.index, NameOf(c.list[id])) else c.index;
    c.(list := c.list - {id}, index := index, view := view, dirty := c.dirty - {id})
  }

  function ReplaceTunnel(c: Cache, id: int, t: Tunnel): Cache {
    if id !in c.list then c
    else
      var before, after := NameOf(c.list[id]), NameOf(t);
      var index := if before == after then c.index else Indexed(Unindexed(c.index, before), after, id);
      Touch(c, id, t).(index := index)
  }

  /** The index after loading the rows in the given order: the last row of a name wins. */
  function IndexOf(rows: map<int, Tunnel>, order: seq<int>): map<string, int>
    requires forall id :: id in order ==> id in rows
  {
    if order == [] then map[]
    else
      var last := order[|order| - 1];
      assert last in order;
      Indexed(IndexOf(rows, order[..|order| - 1]), NameOf(rows[last]), last)
  }

  predicate IsOrderOf(order: seq<int>, rows: map<int, Tunnel>) {
    && (forall id :: id in order ==> id in rows)
    && (forall id :: id in rows ==> id in order)
    && (forall i, j :: 0 <= i < j < |order| ==> order[i] != order[j])
  }

  /** The columns a persist writes; an absent optional leaves the row's column as it is. */
  function Written(row: Tunnel, t: Tunnel): Tunnel {
    row.(status := t.status, counters := t.counters,
         pool := Newer(t.pool, row.pool), ping := Newer(t.ping, row.ping),
         tcps := Newer(t.tcps, row.tcps), udps := Newer(t.udps, row.udps),
         restart := if t.restart.Some? then t.restart else row.restart,
         peer := if t.peer.Some? then t.peer else row.peer)
  }

  /** One transaction over the given ids; an id that is not cached, or has no row, writes nothing. */
  function WriteRows(rows: map<int, Tunnel>, list: map<int, Tunnel>, ids: set<int>): map<int, Tunnel> {
    map id | id in rows :: if id in ids && id in list then Written(rows[id], list[id]) else rows[id]
  }

  function PersistRows(s: State, now: int, commits: bool): State {
    if now - s.cache.lastPersist < s.cache.interval then s
    else if s.cache.dirty == {} then s.(cache := s.cache.(lastPersist := now))
    else if commits then
      State(s.cache.(dirty := {}, lastPersist := now), WriteRows(s.rows, s.cache.list, s.cache.dirty))
    else s
  }

  /** Whether `PersistIfNeeded` reports an error. */
  predicate PersistFails(s: State, now: int, commits: bool) {
    now - s.cache.lastPersist >= s.cache.interval && s.cache.dirty != {} && !commits
  }

  function ForceRows(s: State, now: int, commits: bool): State {
    var t := PersistRows(s.(cache := s.cache.(interval := 0)), now, commits);
    t.(cache := t.cache.(interval := s.cache.interval))
  }

  /** The operations that touch the cache alone. */
  function CacheStep(c: Cache, e: Event): Cache {
    match e
    case Add(id, t, view) => AddTunnel(c, id, t, view)
    case Delete(id, view) => DeleteTunnel(c, id, view)
    case SetStatus(id, status) => if id in c.list then Touch(c, id, c.list[id].(status := status)) else c
    case SetTraffic(id, counters) => if id in c.list then Touch(c, id, c.list[id].(counters := counters)) else c
    case SetMetrics(id, pool, ping, tcps, udps) =>
      if id in c.list then Touch(c, id, WithMetrics(c.list[id], pool, ping, tcps, udps)) else c
    case SetField(id, field, value) =>
      if id in c.list && Supported(field) then Touch(c, id, WithField(c.list[id], field, value)) else c
    case Replace(id, t) => ReplaceTunnel(c, id, t)
    case _ => c
  }

  function ReloadRows(s: State, order: seq<int>, view: seq<Stamp>, loads: bool): State {
    if loads && IsOrderOf(order, s.rows) then
      s.(cache := s.cache.(list := s.rows, index := IndexOf(s.rows, order), view := view, dirty := {}))
    else s
  }

  function Step(s: State, e: Event): State {
    match e
    case InsertRow(id, row) => s.(rows := s.rows[id := row])
    case RemoveRow(id) => s.(rows := s.rows - {id})
    case Persist(now, commits) => PersistRows(s, now, commits)
    case ForcePersist(now, commits) => ForceRows(s, now, commits)
    case Reload(order, view, loads) => ReloadRows(s, order, view, loads)
    case _ => s.(cache := CacheStep(s.cache, e))
  }

  function Exec(s: State, es: seq<Event>): State {
    if es == [] then s else Step(Exec(s, es[..|es| - 1]), es[|es| - 1])
  }

  // -------------------------------------------- the database catches up

  ghost predicate Present<T>(cached: Option<T>, stored: Option<T>) {
    cached.Some? ==> stored == cached
  }

  /** A row carries every persisted value of the cached tunnel that is not nil. */
  ghost predicate Agrees(row: Tunnel, t: Tunnel) {
    && row.status == t.status && row.counters == t.counters
    && Present(t.pool, row.pool) && Present(t.ping, row.ping) && Present(t.tcps, row.tcps) && Present(t.udps, row.udps)
    && Present(t.restart, row.restart) && Present(t.peer, row.peer)
  }

  ghost predicate AgreesAt(s: State, id: int) {
    id in s.cache.list && id in s.rows ==> Agrees(s.rows[id], s.cache.list[id])
  }

  /** Dirty tunnels are cached, and every tunnel that is not dirty agrees with its row. */
  ghost predicate Settled(s: State) {
    && s.cache.dirty <= s.cache.list.Keys
    && forall id :: id !in s.cache.dirty ==> AgreesAt(s, id)
  }

  /**
   What the callers of the cache keep to: rows of listed tunnels are written by the cache alone, a
   tunnel is added with the values of its row, and the clock does not run backwards.
   */
  ghost predicate Allowed(s: State, e: Event) {
    match e
    case InsertRow(id, row) => id !in s.cache.list
    case Add(id, t, view) => id in s.rows && id !in s.cache.dirty ==> Agrees(s.rows[id], t)
    case Persist(now, commits) => now >= s.cache.lastPersist
    case ForcePersist(now, commits) => now >= s.cache.lastPersist
    case _ => true
  }

  ghost predicate AllowedRun(s: State, es: seq<Event>) {
    es != [] ==> AllowedRun(s, es[..|es| - 1]) && Allowed(Exec(s, es[..|es| - 1]), es[|es| - 1])
  }

  /** A column whose cached value is nil is as it was. */
  predicate NilsKept(row: Tunnel, t: Tunnel, after: Tunnel) {
    && (t.pool.None? ==> after.pool == row.pool) && (t.ping.None? ==> after.ping == row.ping)
    && (t.tcps.None? ==> after.tcps == row.tcps) && (t.udps.None? ==> after.udps == row.udps)
    && (t.restart.None? ==> after.restart == row.restart) && (t.peer.None? ==> after.peer == row.peer)
  }

  /** A transaction makes exactly the written tunnels agree, and leaves name, order and identity of every row alone. */
  lemma WriteRowsSettles(rows: map<int, Tunnel>, list: map<int, Tunnel>, ids: set<int>, id: int)
    requires id in rows
    ensures var after := WriteRows(rows, list, ids);
            && after.Keys == rows.Keys
            && (id in ids && id in list ==> Agrees(after[id], list[id]))
            && (id !in ids || id !in list ==> after[id] == rows[id])
            && after[id].name == rows[id].name && after[id].sorts == rows[id].sorts
            && after[id].instance == rows[id].instance && after[id].createdAt == rows[id].createdAt
            && (id in list ==> NilsKept(rows[id], list[id], after[id]))
  {
    var after := WriteRows(rows, list, ids);
    assert after.Keys == rows.Keys;
  }

  lemma PersistSettles(s: State, now: int, commits: bool)
    requires Settled(s)
    ensures Settled(PersistRows(s, now, commits))
    ensures PersistRows(s, now, commits).cache.list == s.cache.list
  {
    hide Agrees;
    var t := PersistRows(s, now, commits);
    forall id | id !in t.cache.dirty ensures AgreesAt(t, id) {
      assert id !in s.cache.dirty ==> AgreesAt(s, id);
      if id in s.rows {
        WriteRowsSettles(s.rows, s.cache.list, s.cache.dirty, id);
      }
    }
  }

  /** Neither a persist nor a change of the table from outside. */
  predicate CacheOnly(es: seq<Event>) {
    forall e :: e in es ==> !e.Persist? && !e.ForcePersist? && !e.InsertRow? && !e.RemoveRow?
  }

  lemma {:induction false} CacheOnlyKeeps(s: State, es: seq<Event>)
    requires CacheOnly(es)
    ensures var t := Exec(s, es);
            t.rows == s.rows && t.cache.lastPersist == s.cache.lastPersist && t.cache.interval == s.cache.interval
  {
    if es != [] {
      hide WithMetrics, WithField, Supported, IndexOf, IsOrderOf;
      assert es[|es| - 1] in es;
      CacheOnlyKeeps(s, es[..|es| - 1]);
    }
  }

  /**
   After a persist that ran, even one with nothing to write, the next does nothing until the interval
   has passed, whatever the cache was told in between; one that failed may be repeated at once.
   */
  lemma {:induction false} PersistWaits(s: State, now: int, later: int, commits: bool, again: bool, es: seq<Event>)
    requires now - s.cache.lastPersist >= s.cache.interval && CacheOnly(es)
    ensures PersistFails(s, now, commits) ==> PersistRows(s, now, commits) == s
    ensures !PersistFails(s, now, commits) && later - now < s.cache.interval ==>
            PersistRows(Exec(PersistRows(s, now, commits), es), later, again) ==
            Exec(PersistRows(s, now, commits), es)
  {
    hide WriteRows, CacheOnly, Exec;
    CacheOnlyKeeps(PersistRows(s, now, commits), es);
  }

  /** A row that was there or was inserted, and was not removed since. */
  predicate RowThere(s: State, es: seq<Event>, id: int) {
    if es == [] then id in s.rows
    else
      var last := es[|es| - 1];
      (last.InsertRow? && last.id == id) || (last != RemoveRow(id) && RowThere(s, es[..|es| - 1], id))
  }

  /** In every run the cache neither adds nor removes rows: there are exactly those that others left. */
  lemma {:induction false} RowsExactly(s: State, es: seq<Event>, id: int)
    ensures id in Exec(s, es).rows <==> RowThere(s, es, id)
    ensures es != [] && es[|es| - 1].InsertRow? && es[|es| - 1].id == id ==> Exec(s, es).rows[id] == es[|es| - 1].row
  {
    if es != [] {
      hide Written, WithMetrics, WithField, Supported, IndexOf, IsOrderOf;
      RowsExactly(s, es[..|es| - 1], id);
    }
  }

  /**
   A forced persist that reports no error leaves every tunnel in agreement with its row, nothing
   dirty, and the interval as it was.
   */
  lemma ForcePersistSettles(s: State, now: int, commits: bool)
    requires Settled(s) && now >= s.cache.lastPersist
    ensures var t := ForceRows(s, now, commits);
            && Settled(t) && t.cache.interval == s.cache.interval && t.cache.list == s.cache.list
            && (PersistFails(s.(cache := s.cache.(interval := 0)), now, commits) ==> t == s)
            && (!PersistFails(s.(cache := s.cache.(interval := 0)), now, commits) ==>
                t.cache.dirty == {} && forall id :: AgreesAt(t, id))
  {
    hide Agrees;
    var zero := s.(cache := s.cache.(interval := 0));
    forall id | id !in s.cache.dirty ensures AgreesAt(zero, id) {
      assert AgreesAt(s, id);
    }
    PersistSettles(zero, now, commits);
    var u, t := PersistRows(zero, now, commits), ForceRows(s, now, commits);
    forall id | id !in t.cache.dirty ensures AgreesAt(t, id) {
      assert AgreesAt(u, id);
    }
  }

  // ------------------------------------------------------- what an update stores

  /** One tunnel has a new value and is dirty; everything else is as it was. */
  predicate OneTouched(before: Cache, after: Cache, id: int, t: Tunnel) {
    && after.list == before.list[id := t] && after.dirty == before.dirty + {id}
    && after.index == before.index && after.view == before.view
    && after.lastPersist == before.lastPersist && after.interval == before.interval
  }

  /** What a field update makes of a tunnel; a value of another type changes nothing. */
  predicate FieldWritten(before: Tunnel, after: Tunnel, field: string, value: Value) {
    if field == "name" && value.Text? then after == before.(name := value.text)
    else if field == "status" && value.Status? then after == before.(status := value.status)
    else if field == "restart" && value.Flag? then after == before.(restart := Some(value.flag))
    else if field == "alias" && value.Text? then
      && after.peer.Some? && after.peer.value.alias == Some(value.text) && after == before.(peer := after.peer)
      && after.peer.value.sid == (if before.peer.Some? then before.peer.value.sid else None)
      && after.peer.value.kind == (if before.peer.Some? then before.peer.value.kind else None)
    else if field == "sorts" && value.Number? then after == before.(sorts := value.number)
    else after == before
  }

  /** Each metric that is given replaces its own column; nothing else changes. */
  predicate MetricsWritten(before: Tunnel, after: Tunnel, pool: Option<int>, ping: Option<int>, tcps: Option<int>,
                           udps: Option<int>) {
    && after == before.(pool := after.pool, ping := after.ping, tcps := after.tcps, udps := after.udps)
    && after.pool == (if pool.Some? then pool else before.pool)
    && after.ping == (if ping.Some? then ping else before.ping)
    && after.tcps == (if tcps.Some? then tcps else before.tcps)
    && after.udps == (if udps.Some? then udps else before.udps)
  }

  /** Status and traffic updates store what they are given. */
  lemma UpdatesStore(c: Cache, id: int, status: string, counters: Counters)
    ensures id in c.list ==>
            && OneTouched(c, CacheStep(c, SetStatus(id, status)), id, c.list[id].(status := status))
            && OneTouched(c, CacheStep(c, SetTraffic(id, counters)), id, c.list[id].(counters := counters))
    ensures id !in c.list ==> CacheStep(c, SetStatus(id, status)) == c == CacheStep(c, SetTraffic(id, counters))
  {
  }

  lemma MetricsStore(c: Cache, id: int, pool: Option<int>, ping: Option<int>, tcps: Option<int>, udps: Option<int>)
    ensures var after := CacheStep(c, SetMetrics(id, pool, ping, tcps, udps));
            if id in c.list then
              id in after.list && OneTouched(c, after, id, after.list[id]) &&
              MetricsWritten(c.list[id], after.list[id], pool, ping, tcps, udps)
            else after == c
  {
  }

  lemma FieldStores(c: Cache, id: int, field: string, value: Value)
    ensures var after := CacheStep(c, SetField(id, field, value));
            if id in c.list && field in {"name", "status", "restart", "alias", "sorts"} then
              id in after.list && OneTouched(c, after, id, after.list[id]) &&
              FieldWritten(c.list[id], after.list[id], field, value)
            else after == c
  {
  }

  /** After a traffic update and a forced persist the row has exactly the given counters. */
  lemma TrafficReachesRow(s: State, id: int, counters: Counters, now: int)
    requires Settled(s) && id in s.cache.list && id in s.rows && now >= s.cache.lastPersist
    ensures var t := Step(Step(s, SetTraffic(id, counters)), ForcePersist(now, true));
            id in t.rows && t.rows[id].counters == counters && t.rows[id].status == s.cache.list[id].status
  {
    var u := Step(s, SetTraffic(id, counters));
    UpdatesStore(s.cache, id, "", counters);
    StepSettles(s, SetTraffic(id, counters));
    ForcePersistSettles(u, now, true);
    hide Agrees, Settled;
    var t := Step(u, ForcePersist(now, true));
    assert AgreesAt(t, id);
    SameRows(u, now);
    AgreesMeans(t.rows[id], t.cache.list[id]);
  }

  lemma SameRows(s: State, now: int)
    ensures ForceRows(s, now, true).rows.Keys == s.rows.Keys
  {
    assert WriteRows(s.rows, s.cache.list, s.cache.dirty).Keys == s.rows.Keys;
  }

  lemma AgreesMeans(row: Tunnel, t: Tunnel)
    requires Agrees(row, t)
    ensures row.counters == t.counters && row.status == t.status
  {
  }

  lemma StepSettles(s: State, e: Event)
    requires Settled(s) && Allowed(s, e)
    ensures Settled(Step(s, e))
  {
    hide Agrees, WithMetrics, WithField, IndexOf;
    var t := Step(s, e);
    match e {
      case Persist(now, commits) => PersistSettles(s, now, commits);
      case ForcePersist(now, commits) => ForcePersistSettles(s, now, commits);
      case Reload(_, _, _) =>
        if t != s {
          forall id ensures AgreesAt(t, id) {
            SameAgrees();
          }
        }
      case _ =>
        forall id | id !in t.cache.dirty ensures AgreesAt(t, id) {
          assert id !in s.cache.dirty ==> AgreesAt(s, id);
        }
    }
  }

  lemma SameAgrees()
    ensures forall t :: Agrees(t, t)
  {
  }

  /** Write-behind: over every run, a tunnel that is not dirty agrees with its row. */
  lemma {:induction false} RunSettles(s: State, es: seq<Event>)
    requires Settled(s) && AllowedRun(s, es)
    ensures Settled(Exec(s, es))
  {
    if es != [] {
      hide Step, Settled, Allowed;
      RunSettles(s, es[..|es| - 1]);
      StepSettles(Exec(s, es[..|es| - 1]), es[|es| - 1]);
    }
  }

  /** Adding keeps the agreement exactly when the tunnel comes with the values of its row, or is dirty anyway. */
  lemma AddSettlesExactly(s: State, id: int, t: Tunnel, view: seq<Stamp>)
    requires Settled(s)
    ensures Settled(Step(s, Add(id, t, view))) <==> (id in s.rows && id !in s.cache.dirty ==> Agrees(s.rows[id], t))
  {
    if Allowed(s, Add(id, t, view)) {
      StepSettles(s, Add(id, t, view));
    } else {
      assert !AgreesAt(Step(s, Add(id, t, view)), id);
    }
  }

  // ------------------------------------------------- a persist is two steps

  /** The committed transaction of a persist, before the dirty set is cleared. */
  function WriteDirty(s: State): State {
    s.(rows := WriteRows(s.rows, s.cache.list, s.cache.dirty))
  }

  function ClearDirty(s: State, now: int): State {
    s.(cache := s.cache.(dirty := {}, lastPersist := now))
  }

  /** The tunnels whose cached values or row an event may set. */
  function TouchedBy(e: Event): set<int> {
    match e
    case InsertRow(id, _) => {id}
    case Add(id, _, _) => {id}
    case SetStatus(id, _) => {id}
    case SetTraffic(id, _) => {id}
    case SetMetrics(id, _, _, _, _) => {id}
    case SetField(id, _, _) => {id}
    case Replace(id, _) => {id}
    case _ => {}
  }

  function Touched(es: seq<Event>): set<int> {
    if es == [] then {} else Touched(es[..|es| - 1]) + TouchedBy(es[|es| - 1])
  }

  lemma PersistUntouched(s: State, now: int, commits: bool, id: int)
    requires AgreesAt(s, id)
    ensures AgreesAt(PersistRows(s, now, commits), id)
  {
    hide Agrees, Written;
    if id in s.rows {
      WriteRowsSettles(s.rows, s.cache.list, s.cache.dirty, id);
    }
  }

  lemma StepUntouched(s: State, e: Event, id: int)
    requires AgreesAt(s, id) && id !in TouchedBy(e)
    ensures AgreesAt(Step(s, e), id)
  {
    hide Agrees, WithMetrics, WithField, IndexOf, PersistRows;
    match e {
      case Persist(now, commits) => PersistUntouched(s, now, commits, id);
      case ForcePersist(now, commits) => PersistUntouched(s.(cache := s.cache.(interval := 0)), now, commits, id);
      case Reload(_, _, _) => SameAgrees();
      case _ =>
    }
  }

  /** A tunnel that agreed with its row and that nobody touches goes on agreeing, whatever else happens. */
  lemma {:induction false} RunUntouched(s: State, es: seq<Event>, id: int)
    requires AgreesAt(s, id) && id !in Touched(es)
    ensures AgreesAt(Exec(s, es), id)
  {
    if es != [] {
      hide Step, AgreesAt, TouchedBy;
      RunUntouched(s, es[..|es| - 1], id);
      StepUntouched(Exec(s, es[..|es| - 1]), es[|es| - 1], id);
    }
  }

  lemma WriteDirtyAgrees(s: State, id: int)
    requires Settled(s)
    ensures AgreesAt(WriteDirty(s), id)
  {
    hide Agrees, Written;
    assert id !in s.cache.dirty ==> AgreesAt(s, id);
    if id in s.rows {
      WriteRowsSettles(s.rows, s.cache.list, s.cache.dirty, id);
    }
  }

  /**
   A persist writes and then clears under separate locks. Undisturbed the two make the atomic step.
   Whatever runs between them, the result is settled exactly when every tunnel that was touched in
   between still agrees with its row; any other is not written until something touches it again, since
   nothing is dirty any more.
   */
  lemma {:induction false} UpdatesDuringPersist(s: State, es: seq<Event>, now: int)
    requires Settled(s)
    ensures s.cache.dirty != {} && now - s.cache.lastPersist >= s.cache.interval ==>
            ClearDirty(WriteDirty(s), now) == PersistRows(s, now, true)
    ensures Settled(ClearDirty(Exec(WriteDirty(s), es), now)) <==>
            forall id :: id in Touched(es) ==> AgreesAt(Exec(WriteDirty(s), es), id)
  {
    hide Agrees, Exec, Touched, WriteRows;
    var u := WriteDirty(s);
    var v := Exec(u, es);
    var t := ClearDirty(v, now);
    forall id ensures AgreesAt(t, id) <==> AgreesAt(v, id) {
    }
    forall id | id !in Touched(es) ensures AgreesAt(v, id) {
      WriteDirtyAgrees(s, id);
      RunUntouched(u, es, id);
    }
    hide WriteDirty, ClearDirty;
    assert Settled(t) <==> forall id :: AgreesAt(t, id);
  }

  predicate Unchanged<T(==)>(given: Option<T>, before: Option<T>) {
    given.None? || given == before
  }

  /** The new tunnel has the persisted values of the old one; an absent value persists as what the row had. */
  predicate SamePersisted(before: Tunnel, after: Tunnel, row: Tunnel) {
    && after.status == before.status && after.counters == before.counters
    && Unchanged(after.pool, Newer(before.pool, row.pool)) && Unchanged(after.ping, Newer(before.ping, row.ping))
    && Unchanged(after.tcps, Newer(before.tcps, row.tcps)) && Unchanged(after.udps, Newer(before.udps, row.udps))
    && Unchanged(after.restart, if before.restart.Some? then before.restart else row.restart)
    && Unchanged(after.peer, if before.peer.Some? then before.peer else row.peer)
  }

  lemma AgreesAfterExactly(row: Tunnel, before: Tunnel, after: Tunnel)
    requires Agrees(row, before)
    ensures Agrees(row, after) <==> SamePersisted(before, after, row)
  {
  }

  predicate IsUpdate(e: Event) {
    e.SetStatus? || e.SetTraffic? || e.SetMetrics? || e.SetField? || e.Replace?
  }

  /**
   For any update of a cached tunnel with a row in between, the result is settled exactly when the
   update left every persisted value as it was.
   */
  lemma UpdateDuringPersist(s: State, e: Event, now: int)
    requires Settled(s) && IsUpdate(e) && e.id in s.cache.list && e.id in s.rows
    ensures e.id in Step(WriteDirty(s), e).cache.list
    ensures Settled(ClearDirty(Step(WriteDirty(s), e), now)) <==>
            SamePersisted(s.cache.list[e.id], Step(WriteDirty(s), e).cache.list[e.id], WriteDirty(s).rows[e.id])
  {
    hide Settled, Agrees, SamePersisted, WithMetrics, WithField, ClearDirty, WriteRows;
    var u := WriteDirty(s);
    WriteDirtyAgrees(s, e.id);
    UpdatesDuringPersist(s, [e], now);
    OneEvent(u, e);
    KeepsRow(s, e);
    AgreesAfterExactly(u.rows[e.id], s.cache.list[e.id], Step(u, e).cache.list[e.id]);
    hide Step, WriteDirty;
  }

  lemma {:induction false} OneEvent(s: State, e: Event)
    ensures Exec(s, [e]) == Step(s, e) && Touched([e]) == TouchedBy(e)
  {
    hide Step, TouchedBy;
    assert [e][..0] == [];
  }

  lemma KeepsRow(s: State, e: Event)
    requires IsUpdate(e) && e.id in s.cache.list && e.id in s.rows
    ensures var u, v := WriteDirty(s), Step(WriteDirty(s), e);
            && e.id in u.rows && e.id in v.rows && v.rows[e.id] == u.rows[e.id] && e.id in v.cache.list
            && u.cache.list == s.cache.list && TouchedBy(e) == {e.id}
  {
    hide Written, WithMetrics, WithField;
  }

  // ------------------------------------------ when to persist does not matter

  predicate IsPersist(e: Event) {
    e.Persist? || e.ForcePersist?
  }

  /** A run without its persists. */
  function Erased(es: seq<Event>): seq<Event> {
    if es == [] then []
    else if IsPersist(es[|es| - 1]) then Erased(es[..|es| - 1])
    else Erased(es[..|es| - 1]) + [es[|es| - 1]]
  }

  ghost predicate SameData(s: State, t: State) {
    s.cache.list == t.cache.list && s.rows.Keys == t.rows.Keys
  }

  lemma StepSameData(s: State, t: State, e: Event)
    requires SameData(s, t) && !e.Reload? && !IsPersist(e)
    ensures SameData(Step(s, e), Step(t, e))
  {
    hide WithMetrics, WithField;
  }

  lemma PersistSameData(s: State, e: Event)
    requires IsPersist(e)
    ensures SameData(Step(s, e), s)
  {
    hide Written;
  }

  lemma SameDataTransitive(s: State, t: State, u: State)
    requires SameData(s, t) && SameData(t, u)
    ensures SameData(s, u)
  {
  }

  lemma {:induction false} ErasedSameData(s: State, es: seq<Event>)
    requires forall e :: e in es ==> !e.Reload?
    ensures SameData(Exec(s, es), Exec(s, Erased(es)))
  {
    if es != [] {
      hide Step, SameData, IsPersist;
      var front, last := es[..|es| - 1], es[|es| - 1];
      ErasedSameData(s, front);
      if IsPersist(last) {
        PersistSameData(Exec(s, front), last);
        SameDataTransitive(Exec(s, es), Exec(s, front), Exec(s, Erased(front)));
      } else {
        StepSameData(Exec(s, front), Exec(s, Erased(front)), last);
        assert (Erased(front) + [last])[..|Erased(front)|] == Erased(front);
      }
    } else {
      hide Step;
    }
  }

  /**
   Two runs that differ only in when they persist, and which of those persists commit, have the same
   tunnels in the table with the same status and counters after a forced persist that commits.
   */
  lemma {:induction false} PersistScheduleDoesNotMatter(s: State, es: seq<Event>, fs: seq<Event>, now: int, id: int)
    requires Settled(s) && AllowedRun(s, es) && AllowedRun(s, fs) && Erased(es) == Erased(fs)
    requires (forall e :: e in es ==> !e.Reload?) && (forall e :: e in fs ==> !e.Reload?)
    requires now >= Exec(s, es).cache.lastPersist && now >= Exec(s, fs).cache.lastPersist
    ensures var a, b := ForceRows(Exec(s, es), now, true), ForceRows(Exec(s, fs), now, true);
            && a.rows.Keys == b.rows.Keys && a.cache.list == b.cache.list
            && (id in a.rows && id in a.cache.list ==>
                a.rows[id].status == b.rows[id].status && a.rows[id].counters == b.rows[id].counters)
  {
    hide Exec, AllowedRun, Settled, Erased;
    RunSettles(s, es);
    RunSettles(s, fs);
    ErasedSameData(s, es);
    ErasedSameData(s, fs);
    ForcePersistSettles(Exec(s, es), now, true);
    ForcePersistSettles(Exec(s, fs), now, true);
    PersistSameData(Exec(s, es), ForcePersist(now, true));
    PersistSameData(Exec(s, fs), ForcePersist(now, true));
    hide ForceRows, PersistRows;
    var a, b := ForceRows(Exec(s, es), now, true), ForceRows(Exec(s, fs), now, true);
    assert AgreesAt(a, id) && AgreesAt(b, id);
  }

  // ---------------------------------------------- the index is a linear scan

  predicate Maps(c: Cache, name: string, id: int) {
    name in c.index && c.index[name] == id
  }

  predicate Carries(list: map<int, Tunnel>, id: int, name: string) {
    id in list && list[id].instance == Some(name)
  }

  /** Looking a non-empty instance up gives exactly what a scan of the list gives; the empty one is never indexed. */
  ghost predicate IndexAgrees(c: Cache) {
    && "" !in c.index
    && forall name, id :: name != "" ==> (Maps(c, name, id) <==> Carries(c.list, id, name))
  }

  /** No cached tunnel other than `id` carries the name, unless the name is empty. */
  ghost predicate NameFree(list: map<int, Tunnel>, name: string, id: int) {
    name != "" ==> forall other :: Carries(list, other, name) ==> other == id
  }

  /**
   Adding keeps the index right exactly when no other tunnel has the name and no earlier name of the id is left
   behind.
   */
  lemma IndexAfterAdd(c: Cache, id: int, t: Tunnel, view: seq<Stamp>)
    requires IndexAgrees(c)
    ensures IndexAgrees(AddTunnel(c, id, t, view)) <==>
            NameFree(c.list, NameOf(t), id) &&
            (id in c.list ==> NameOf(c.list[id]) == "" || NameOf(c.list[id]) == NameOf(t))
  {
    var d := AddTunnel(c, id, t, view);
    var name := NameOf(t);
    if !NameFree(c.list, name, id) {
      var other :| Carries(c.list, other, name) && other != id;
      assert Carries(d.list, other, name) && !Maps(d, name, other);
    } else if id in c.list && NameOf(c.list[id]) != "" && NameOf(c.list[id]) != name {
      var before := NameOf(c.list[id]);
      assert Carries(c.list, id, before);
      assert Maps(c, before, id);
      assert Maps(d, before, id) && !Carries(d.list, id, before);
    } else {
      forall n, i | n != "" ensures Maps(d, n, i) <==> Carries(d.list, i, n) {
        assert Maps(c, n, i) <==> Carries(c.list, i, n);
        assert Maps(c, n, id) <==> Carries(c.list, id, n);
      }
    }
  }

  lemma IndexAfterDelete(c: Cache, id: int, view: seq<Stamp>)
    requires IndexAgrees(c)
    ensures IndexAgrees(DeleteTunnel(c, id, view))
  {
    var d := DeleteTunnel(c, id, view);
    forall n, i | n != "" ensures Maps(d, n, i) <==> Carries(d.list, i, n) {
      assert Maps(c, n, i) <==> Carries(c.list, i, n);
      assert Maps(c, n, id) <==> Carries(c.list, id, n);
    }
  }

  /** Replacing keeps the index right exactly when no other tunnel carries the new name. */
  lemma IndexAfterReplace(c: Cache, id: int, t: Tunnel)
    requires IndexAgrees(c)
    ensures IndexAgrees(ReplaceTunnel(c, id, t)) <==> (id in c.list ==> NameFree(c.list, NameOf(t), id))
  {
    var d := ReplaceTunnel(c, id, t);
    var name := NameOf(t);
    if id in c.list {
      if !NameFree(c.list, name, id) {
        var other :| Carries(c.list, other, name) && other != id;
        assert Carries(d.list, other, name);
        assert Maps(c, name, other);
        assert Carries(d.list, id, name);
        assert !Maps(d, name, other) || !Maps(d, name, id);
      } else {
        forall n, i | n != "" ensures Maps(d, n, i) <==> Carries(d.list, i, n) {
          assert Maps(c, n, i) <==> Carries(c.list, i, n);
          assert Maps(c, n, id) <==> Carries(c.list, id, n);
        }
      }
    }
  }

  ghost predicate NamesDistinct(list: map<int, Tunnel>) {
    forall i, j, name :: name != "" && Carries(list, i, name) && Carries(list, j, name) ==> i == j
  }

  /** After loading, the index knows every name of the loaded rows, and points at a row that carries it. */
  lemma {:induction false} IndexOfRows(rows: map<int, Tunnel>, order: seq<int>)
    requires forall id :: id in order ==> id in rows
    ensures var index := IndexOf(rows, order);
            && "" !in index
            && (forall name :: name in index ==> index[name] in order && Carries(rows, index[name], name))
            && (forall id, name :: id in order && Carries(rows, id, name) && name != "" ==> name in index)
  {
    if order != [] {
      IndexOfRows(rows, order[..|order| - 1]);
    }
  }

  /** Loading gives a right index exactly when the table's instance names are distinct. */
  lemma IndexAfterReload(s: State, order: seq<int>, view: seq<Stamp>)
    requires IsOrderOf(order, s.rows)
    ensures IndexAgrees(Step(s, Reload(order, view, true)).cache) <==> NamesDistinct(s.rows)
  {
    hide IndexOf;
    var d := Step(s, Reload(order, view, true)).cache;
    IndexOfRows(s.rows, order);
    if NamesDistinct(s.rows) {
      forall n, i | n != "" ensures Maps(d, n, i) <==> Carries(d.list, i, n) {
        if n in d.index {
          assert Carries(s.rows, d.index[n], n);
        }
      }
    } else {
      var i, j, name :| name != "" && Carries(s.rows, i, name) && Carries(s.rows, j, name) && i != j;
      assert !Maps(d, name, i) || !Maps(d, name, j);
    }
  }

  /** Instance names stay distinct: what the callers owe the index. */
  ghost predicate Distinct(s: State, e: Event) {
    match e
    case Add(id, t, view) => id !in s.cache.list && NameFree(s.cache.list, NameOf(t), id)
    case Replace(id, t) => NameFree(s.cache.list, NameOf(t), id)
    case Reload(order, view, loads) => NamesDistinct(s.rows)
    case _ => true
  }

  lemma StepIndexes(s: State, e: Event)
    requires IndexAgrees(s.cache) && Distinct(s, e)
    ensures IndexAgrees(Step(s, e).cache)
  {
    hide IndexOf, Written, NameFree, NamesDistinct, WriteRows;
    var c, d := s.cache, Step(s, e).cache;
    match e {
      case Add(id, t, view) => IndexAfterAdd(c, id, t, view);
      case Delete(id, view) => IndexAfterDelete(c, id, view);
      case Replace(id, t) => IndexAfterReplace(c, id, t);
      case Reload(order, view, loads) =>
        if d != c {
          IndexAfterReload(s, order, view);
        }
      case _ =>
        forall n, i | n != "" ensures Maps(d, n, i) <==> Carries(d.list, i, n) {
          assert Maps(c, n, i) <==> Carries(c.list, i, n);
        }
    }
  }

  ghost predicate DistinctRun(s: State, es: seq<Event>) {
    es != [] ==> DistinctRun(s, es[..|es| - 1]) && Distinct(Exec(s, es[..|es| - 1]), es[|es| - 1])
  }

  lemma {:induction false} RunIndexes(s: State, es: seq<Event>)
    requires IndexAgrees(s.cache) && DistinctRun(s, es)
    ensures IndexAgrees(Exec(s, es).cache)
  {
    if es != [] {
      hide Step, IndexAgrees, Distinct;
      RunIndexes(s, es[..|es| - 1]);
      StepIndexes(Exec(s, es[..|es| - 1]), es[|es| - 1]);
    }
  }

  // ---------------------------------------------------------- the sorted view

  /** The view holds each id of the list exactly once, newest first. */
  ghost predicate ViewHolds(list: map<int, Tunnel>, view: seq<Stamp>) {
    && (forall i :: 0 <= i < |view| ==> view[i].id in list)
    && (forall id :: id in list ==> Listed(view, id))
    && (forall i, j :: 0 <= i < j < |view| ==> view[i].id != view[j].id && view[i].createdAt >= view[j].createdAt)
  }

  ghost predicate Listed(view: seq<Stamp>, id: int) {
    exists i :: 0 <= i < |view| && view[i].id == id
  }

  /** Every stamp is the creation time the list has for that id. */
  ghost predicate StampsCurrent(list: map<int, Tunnel>, view: seq<Stamp>) {
    forall i :: 0 <= i < |view| && view[i].id in list ==> view[i].createdAt == list[view[i].id].createdAt
  }

  /** Sorting gives some order of the list: any tie may fall either way. */
  ghost predicate Sorts(s: State, e: Event) {
    var list := Step(s, e).cache.list;
    match e
    case Add(_, _, view) => ViewHolds(list, view) && StampsCurrent(list, view)
    case Delete(_, view) => ViewHolds(list, view) && StampsCurrent(list, view)
    case Reload(_, view, loads) => loads ==> ViewHolds(list, view) && StampsCurrent(list, view)
    case _ => true
  }

  /** Every step keeps the view; the stamps stay current as well unless a replacement changes a creation time. */
  lemma StepViews(s: State, e: Event)
    requires ViewHolds(s.cache.list, s.cache.view) && Sorts(s, e)
    ensures var t := Step(s, e);
            && ViewHolds(t.cache.list, t.cache.view)
            && (StampsCurrent(s.cache.list, s.cache.view) ==>
                (StampsCurrent(t.cache.list, t.cache.view) <==>
                 (e.Replace? && e.id in s.cache.list ==> e.tunnel.createdAt == s.cache.list[e.id].createdAt)))
  {
    hide Written, WriteRows, IndexOf, Listed;
    var c, d := s.cache, Step(s, e).cache;
    if e.Replace? && e.id in c.list {
      assert Listed(c.view, e.id);
      if StampsCurrent(c.list, c.view) {
        StaleStamp(c, e.id, e.tunnel);
      }
    }
  }

  lemma StaleStamp(c: Cache, id: int, t: Tunnel)
    requires id in c.list && Listed(c.view, id) && StampsCurrent(c.list, c.view)
    ensures StampsCurrent(ReplaceTunnel(c, id, t).list, c.view) <==> t.createdAt == c.list[id].createdAt
  {
  }

  ghost predicate SortsRun(s: State, es: seq<Event>) {
    es != [] ==> SortsRun(s, es[..|es| - 1]) && Sorts(Exec(s, es[..|es| - 1]), es[|es| - 1])
  }

  lemma {:induction false} RunViews(s: State, es: seq<Event>)
    requires ViewHolds(s.cache.list, s.cache.view) && SortsRun(s, es)
    ensures ViewHolds(Exec(s, es).cache.list, Exec(s, es).cache.view)
  {
    if es != [] {
      hide Step, ViewHolds, Sorts, StampsCurrent;
      RunViews(s, es[..|es| - 1]);
      StepViews(Exec(s, es[..|es| - 1]), es[|es| - 1]);
    }
  }

  // --------------------------------------------------- from a freshly loaded cache

  const PERSIST_INTERVAL := 30

  /** `InitShared`: the cache holds the table's rows, with nothing to persist. */
  function Loaded(rows: map<int, Tunnel>, order: seq<int>, view: seq<Stamp>, now: int): State {
    ReloadRows(State(Cache(map[], map[], [], {}, now, PERSIST_INTERVAL), rows), order, view, true)
  }

  lemma LoadedIsRight(rows: map<int, Tunnel>, order: seq<int>, view: seq<Stamp>, now: int)
    requires IsOrderOf(order, rows)
    ensures var s := Loaded(rows, order, view, now);
            Settled(s) && s.cache.list == rows && s.cache.view == view &&
              (IndexAgrees(s.cache) <==> NamesDistinct(rows))
  {
    hide IndexOf, IndexAgrees, NamesDistinct, Agrees;
    SameAgrees();
    IndexAfterReload(State(Cache(map[], map[], [], {}, now, PERSIST_INTERVAL), rows), order, view);
  }

  /**
   After loading, every run that keeps to the callers' discipline has clean tunnels in the table, a right index
   and a right view.
   */
  lemma {:induction false} LoadedStaysRight(rows: map<int, Tunnel>, order: seq<int>, view: seq<Stamp>, now: int,
                                            es: seq<Event>)
    requires IsOrderOf(order, rows)
    ensures var s := Loaded(rows, order, view, now);
            && (AllowedRun(s, es) ==> Settled(Exec(s, es)))
            && (NamesDistinct(rows) && DistinctRun(s, es) ==> IndexAgrees(Exec(s, es).cache))
            && (ViewHolds(rows, view) && SortsRun(s, es) ==> ViewHolds(Exec(s, es).cache.list, Exec(s, es).cache.view))
  {
    hide Exec, AllowedRun, DistinctRun, SortsRun, Settled, IndexAgrees, ViewHolds, Loaded, IsOrderOf, NamesDistinct;
    LoadedIsRight(rows, order, view, now);
    var s := Loaded(rows, order, view, now);
    if AllowedRun(s, es) {
      RunSettles(s, es);
    }
    if NamesDistinct(rows) && DistinctRun(s, es) {
      RunIndexes(s, es);
    }
    if ViewHolds(rows, view) && SortsRun(s, es) {
      RunViews(s, es);
    }
  }
}
