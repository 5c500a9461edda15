/**
 Reconciling the tunnel table with the instances a remote master reports: each reported instance is
 created or updated, then every other named row of that endpoint is deleted, all in one transaction.
 */
module TunnelRefresh {
  import opened Tunnels
  import opened Wrappers

  /**
   The tunnel built from one instance. `fixed` are the columns an update always writes, where a nil
   pointer is a missing entry, and `optional` those it writes only when they are not nil.
   */
  datatype Tunnel = Tunnel(status: string, logLevel: string, fixed: map<string, string>, optional: map<string, string>,
                           peer: Option<Peer>)

  /** A remote instance; `kind` is its type and `alias` becomes the tunnel's name. */
  datatype Instance = Instance(id: string, kind: string, alias: Option<string>, tunnel: Tunnel)

  datatype Content = Content(status: string, logLevel: string, fixed: map<string, string>,
                             optional: map<string, string>, peer: Option<Peer>, serviceSid: Option<string>)

  datatype Row = Row(id: int, content: Content)

  datatype Key = Key(endpoint: int, instance: string)

  /**
   The unique index on endpoint and instance makes the named rows a map; rows without an instance id stand
   beside it.
   */
  datatype Table = Table(named: map<Key, Row>, unnamed: map<int, seq<Content>>, next: int)

  const DEFAULT_STATUS := "stopped"
  const DEFAULT_LOG_LEVEL := "inherit"

  // -------------------------------------------------------------- operations

  /** An insert replaces empty columns by their declared defaults and takes the peer's sid as it is. */
  function Created(t: Tunnel): Content {
    Content(if t.status == "" then DEFAULT_STATUS else t.status,
            if t.logLevel == "" then DEFAULT_LOG_LEVEL else t.logLevel,
            t.fixed, t.optional, t.peer,
            if t.peer.Some? then t.peer.value.sid else None)
  }

  /** `TunnelToMap`: an empty sid clears the service column. */
  function ServiceOf(t: Tunnel): Option<string> {
    if t.peer.Some? && t.peer.value.sid.Some? && t.peer.value.sid.value != "" then t.peer.value.sid else None
  }

  function Updated(c: Content, t: Tunnel): Content {
    Content(t.status, t.logLevel, t.fixed, c.optional + t.optional,
            if t.peer.Some? then t.peer else c.peer, ServiceOf(t))
  }

  function ApplyOne(table: Table, endpoint: int, inst: Instance): Table {
    var key := Key(endpoint, inst.id);
    if inst.kind == "" then table
    else if key in table.named then
      table.(named := table.named[key := Row(table.named[key].id, Updated(table.named[key].content, inst.tunnel))])
    else table.(named := table.named[key := Row(table.next, Created(inst.tunnel))], next := table.next + 1)
  }

  function ApplyAll(table: Table, endpoint: int, insts: seq<Instance>): Table {
    if insts == [] then table
    else ApplyOne(ApplyAll(table, endpoint, insts[..|insts| - 1]), endpoint, insts[|insts| - 1])
  }

  /** The ids of the instances that have a type. */
  function Seen(insts: seq<Instance>): set<string> {
    set inst | inst in insts && inst.kind != "" :: inst.id
  }

  function Sweep(table: Table, endpoint: int, seen: set<string>): Table {
    table.(named := map key | key in table.named && (key.endpoint != endpoint || key.instance in seen) ::
           table.named[key])
  }

  /** A typed instance without an alias makes the handler panic inside the transaction. */
  predicate Panics(insts: seq<Instance>) {
    exists i :: 0 <= i < |insts| && insts[i].kind != "" && insts[i].alias.None?
  }

  /** The whole refresh; `fails` stands for any database error or a failed commit. */
  function Refresh(table: Table, endpoint: int, insts: seq<Instance>, fails: bool): Table {
    if fails || Panics(insts) then table else Sweep(ApplyAll(table, endpoint, insts), endpoint, Seen(insts))
  }

  // ------------------------------------------------------------ what a key gets

  /** The tunnels reported for one instance id, in order. */
  function TunnelsOf(insts: seq<Instance>, id: string): seq<Tunnel> {
    if insts == [] then []
    else
      var front, last := TunnelsOf(insts[..|insts| - 1], id), insts[|insts| - 1];
      if last.kind != "" && last.id == id then front + [last.tunnel] else front
  }

  function UpdatedAll(c: Content, ts: seq<Tunnel>): Content {
    if ts == [] then c else Updated(UpdatedAll(c, ts[..|ts| - 1]), ts[|ts| - 1])
  }

  lemma {:induction false} SeenIsReported(insts: seq<Instance>, id: string)
    ensures id in Seen(insts) <==> TunnelsOf(insts, id) != []
  {
    if insts != [] {
      var front, last := insts[..|insts| - 1], insts[|insts| - 1];
      SeenIsReported(front, id);
      assert insts == front + [last];
      if id in Seen(insts) {
        var inst :| inst in insts && inst.kind != "" && inst.id == id;
        assert inst in front || inst == last;
      }
    }
  }

  /** What the loop makes of one key: updates of the row that was there, or of the row it created. */
  function ContentAfter(table: Table, key: Key, ts: seq<Tunnel>): Content
    requires key in table.named || ts != []
  {
    if key in table.named then UpdatedAll(table.named[key].content, ts) else UpdatedAll(Created(ts[0]), ts[1..])
  }

  lemma {:induction false} UpdatedSnoc(c: Content, ts: seq<Tunnel>, t: Tunnel)
    ensures UpdatedAll(c, ts + [t]) == Updated(UpdatedAll(c, ts), t)
  {
    assert (ts + [t])[..|ts|] == ts;
  }

  lemma ContentSnoc(table: Table, key: Key, ts: seq<Tunnel>, t: Tunnel)
    ensures ContentAfter(table, key, ts + [t]) ==
            if key in table.named || ts != [] then Updated(ContentAfter(table, key, ts), t) else Created(t)
  {
    if key in table.named {
      UpdatedSnoc(table.named[key].content, ts, t);
    } else if ts != [] {
      assert (ts + [t])[1..] == ts[1..] + [t] && (ts + [t])[0] == ts[0];
      UpdatedSnoc(Created(ts[0]), ts[1..], t);
    } else {
      assert ([] + [t])[1..] == [];
    }
  }

  lemma {:induction false} ApplyAllAt(table: Table, endpoint: int, insts: seq<Instance>, key: Key)
    ensures var after, ts := ApplyAll(table, endpoint, insts), TunnelsOf(insts, key.instance);
            && (key in after.named <==> key in table.named || (key.endpoint == endpoint && ts != []))
            && (key.endpoint != endpoint && key in table.named ==> after.named[key] == table.named[key])
            && (key.endpoint == endpoint && key in after.named ==>
                after.named[key].content == ContentAfter(table, key, ts))
            && (key in table.named ==> after.named[key].id == table.named[key].id)
            && after.unnamed == table.unnamed
  {
    if insts != [] {
      hide Created, Updated, UpdatedAll, ContentAfter;
      var front, last := insts[..|insts| - 1], insts[|insts| - 1];
      ApplyAllAt(table, endpoint, front, key);
      ContentSnoc(table, key, TunnelsOf(front, key.instance), last.tunnel);
    } else {
      assert key in table.named ==> UpdatedAll(table.named[key].content, []) == table.named[key].content;
    }
  }

  /**
   Reconciliation: a committed refresh leaves exactly one row for each instance of non-empty type,
   with the content its reports give it, no other named row of the endpoint, and everything else alone.
   */
  lemma {:induction false} Reconciles(table: Table, endpoint: int, insts: seq<Instance>, key: Key)
    requires !Panics(insts)
    ensures var after := Refresh(table, endpoint, insts, false);
            && after.unnamed == table.unnamed
            && (key.endpoint == endpoint ==> (key in after.named <==> key.instance in Seen(insts)))
            && (key.endpoint == endpoint && key in after.named ==>
                TunnelsOf(insts, key.instance) != [] &&
                  after.named[key].content == ContentAfter(table, key, TunnelsOf(insts, key.instance)))
            && (key.endpoint != endpoint ==> (key in after.named <==> key in table.named))
            && (key in after.named && key in table.named ==> after.named[key].id == table.named[key].id)
            && (key.endpoint != endpoint && key in table.named ==> after.named[key] == table.named[key])
  {
    hide ApplyAll, TunnelsOf, ContentAfter, Seen;
    ApplyAllAt(table, endpoint, insts, key);
    SeenIsReported(insts, key.instance);
  }

  // ------------------------------------------------------ running it once more

  /** The last report of a list decides every column that updates always write. */
  lemma {:induction false} UpdatedByLast(c: Content, d: Content, ts: seq<Tunnel>)
    requires ts != []
    ensures var last, a, b := ts[|ts| - 1], UpdatedAll(c, ts), UpdatedAll(d, ts);
            && a.status == last.status == b.status && a.logLevel == last.logLevel == b.logLevel
            && a.fixed == last.fixed == b.fixed && a.serviceSid == ServiceOf(last) == b.serviceSid
  {
  }

  /** The optional columns a list of updates sets, whatever was there. */
  function Overlay(ts: seq<Tunnel>): map<string, string> {
    if ts == [] then map[] else Overlay(ts[..|ts| - 1]) + ts[|ts| - 1].optional
  }

  function LastPeer(ts: seq<Tunnel>): Option<Peer> {
    if ts == [] then None
    else if ts[|ts| - 1].peer.Some? then ts[|ts| - 1].peer
    else LastPeer(ts[..|ts| - 1])
  }

  lemma MergeAssociates(a: map<string, string>, b: map<string, string>, c: map<string, string>)
    ensures (a + b) + c == a + (b + c)
  {
  }

  lemma {:induction false} UpdatedOverlay(c: Content, ts: seq<Tunnel>)
    ensures UpdatedAll(c, ts).optional == c.optional + Overlay(ts)
    ensures UpdatedAll(c, ts).peer == if LastPeer(ts).Some? then LastPeer(ts) else c.peer
  {
    if ts == [] {
      assert c.optional + map[] == c.optional;
    } else {
      var front, last := ts[..|ts| - 1], ts[|ts| - 1];
      UpdatedOverlay(c, front);
      MergeAssociates(c.optional, Overlay(front), last.optional);
    }
  }

  lemma {:induction false} OverlayNames(ts: seq<Tunnel>, column: string)
    ensures column in Overlay(ts) <==> exists t :: t in ts && column in t.optional
  {
    if ts != [] {
      var front, last := ts[..|ts| - 1], ts[|ts| - 1];
      OverlayNames(front, column);
      assert ts == front + [last];
      assert last in ts;
    }
  }

  /**
   For a row that was there before, the last report decides every fixed column and every optional one
   it sets; an optional column that no report sets keeps its value.
   */
  lemma {:induction false} LastReportWins(table: Table, endpoint: int, insts: seq<Instance>, id: string, column: string)
    requires !Panics(insts) && Key(endpoint, id) in table.named && TunnelsOf(insts, id) != []
    ensures var key, ts := Key(endpoint, id), TunnelsOf(insts, id);
            var before, after, last := table.named[key].content, Refresh(table, endpoint, insts, false), ts[|ts| - 1];
            && key in after.named
            && after.named[key].content.fixed == last.fixed && after.named[key].content.status == last.status
            && after.named[key].content.logLevel == last.logLevel &&
               after.named[key].content.serviceSid == ServiceOf(last)
            && (column in last.optional ==>
                column in after.named[key].content.optional &&
                  after.named[key].content.optional[column] == last.optional[column])
            && ((forall t :: t in ts ==> column !in t.optional) ==>
                (column in after.named[key].content.optional <==> column in before.optional)
                && (column in before.optional ==> after.named[key].content.optional[column] == before.optional[column]))
  {
    hide Refresh, TunnelsOf, UpdatedAll, Panics;
    var key, ts := Key(endpoint, id), TunnelsOf(insts, id);
    Reconciles(table, endpoint, insts, key);
    SeenIsReported(insts, id);
    UpdatedByLast(table.named[key].content, table.named[key].content, ts);
    UpdatedOverlay(table.named[key].content, ts);
    OverlayNames(ts, column);
  }

  /** Updating twice with the same reports is updating once. */
  lemma {:induction false} UpdateTwice(c: Content, ts: seq<Tunnel>)
    requires ts != []
    ensures UpdatedAll(UpdatedAll(c, ts), ts) == UpdatedAll(c, ts)
  {
    UpdatedByLast(c, UpdatedAll(c, ts), ts);
    UpdatedOverlay(c, ts);
    UpdatedOverlay(UpdatedAll(c, ts), ts);
    hide UpdatedAll, Overlay, LastPeer;
  }

  /** A tunnel whose inserted row an update would leave as it is: no default was filled in and no empty sid stored. */
  predicate SameWhenCreated(t: Tunnel) {
    t.status != "" && t.logLevel != "" && (t.peer.Some? ==> t.peer.value.sid != Some(""))
  }

  lemma CreateThenUpdate(t: Tunnel)
    ensures Updated(Created(t), t) == Created(t) <==> SameWhenCreated(t)
  {
    MergeTwice(t.optional);
  }

  /** A row that was created and then updated by a later report of the same list is already settled. */
  lemma {:induction false} CreateUpdateTwice(t: Tunnel, ts: seq<Tunnel>)
    requires ts != []
    ensures UpdatedAll(UpdatedAll(Created(t), ts), [t] + ts) == UpdatedAll(Created(t), ts)
  {
    hide UpdatedAll, Overlay, LastPeer, Created, ServiceOf;
    var c, all := UpdatedAll(Created(t), ts), [t] + ts;
    CreatedKeeps(t);
    OverlayCons(t, ts);
    UpdatedOverlay(Created(t), ts);
    UpdatedOverlay(c, all);
    UpdatedByLast(c, c, all);
    UpdatedByLast(Created(t), Created(t), ts);
    assert all[|all| - 1] == ts[|ts| - 1];
    MergeTwice(t.optional + Overlay(ts));
  }

  lemma CreatedKeeps(t: Tunnel)
    ensures Created(t).optional == t.optional && Created(t).peer == t.peer
  {
  }

  lemma MergeTwice(a: map<string, string>)
    ensures a + a == a
  {
  }

  lemma {:induction false} OverlayCons(t: Tunnel, ts: seq<Tunnel>)
    ensures Overlay([t] + ts) == t.optional + Overlay(ts)
    ensures LastPeer([t] + ts) == if LastPeer(ts).Some? then LastPeer(ts) else t.peer
  {
    var all := [t] + ts;
    if ts == [] {
      assert all == [t] && all[..0] == [];
      assert Overlay(all[..0]) == map[];
      assert map[] + t.optional == t.optional && t.optional + map[] == t.optional;
    } else {
      assert all[..|all| - 1] == [t] + ts[..|ts| - 1] && all[|all| - 1] == ts[|ts| - 1];
      OverlayCons(t, ts[..|ts| - 1]);
      MergeAssociates(t.optional, Overlay(ts[..|ts| - 1]), ts[|ts| - 1].optional);
    }
  }

  lemma {:induction false} UpdatedOnce(c: Content, t: Tunnel)
    ensures UpdatedAll(c, []) == c && UpdatedAll(c, [t]) == Updated(c, t)
  {
    assert [t][..0] == [];
  }

  /**
   The content of a key after a second refresh is the first one's, except for a row that one single report
   created.
   */
  lemma {:induction false} SecondContent(table: Table, key: Key, ts: seq<Tunnel>)
    requires ts != []
    ensures UpdatedAll(ContentAfter(table, key, ts), ts) == ContentAfter(table, key, ts) <==>
            (key !in table.named && |ts| == 1 ==> SameWhenCreated(ts[0]))
  {
    hide UpdatedAll, Updated, Created, SameWhenCreated;
    if key in table.named {
      UpdateTwice(table.named[key].content, ts);
    } else if |ts| > 1 {
      CreateUpdateTwice(ts[0], ts[1..]);
      assert [ts[0]] + ts[1..] == ts;
    } else {
      CreateThenUpdate(ts[0]);
      assert ts == [ts[0]] && ts[1..] == [];
      UpdatedOnce(Created(ts[0]), ts[0]);
    }
  }

  /** The instances that the refresh would create from a single report. */
  ghost predicate CreatedOnce(table: Table, endpoint: int, insts: seq<Instance>, id: string) {
    Key(endpoint, id) !in table.named && |TunnelsOf(insts, id)| == 1
  }

  lemma {:induction false} NothingNew(table: Table, endpoint: int, insts: seq<Instance>)
    requires forall inst :: inst in insts && inst.kind != "" ==> Key(endpoint, inst.id) in table.named
    ensures ApplyAll(table, endpoint, insts).next == table.next
    ensures table.named.Keys <= ApplyAll(table, endpoint, insts).named.Keys
  {
    if insts != [] {
      hide Created, Updated;
      var front, last := insts[..|insts| - 1], insts[|insts| - 1];
      assert last in insts;
      NothingNew(table, endpoint, front);
    }
  }

  lemma {:induction false} SecondRefreshAt(table: Table, endpoint: int, insts: seq<Instance>, key: Key)
    requires !Panics(insts)
    ensures var once := Refresh(table, endpoint, insts, false);
            var twice := Refresh(once, endpoint, insts, false);
            && (key in twice.named <==> key in once.named)
            && (key in once.named ==> twice.named[key].id == once.named[key].id)
            && (key.endpoint != endpoint && key in once.named ==> twice.named[key] == once.named[key])
            && (key.endpoint == endpoint && key in once.named ==>
                (twice.named[key] == once.named[key] <==>
                 (CreatedOnce(table, endpoint, insts, key.instance) ==>
                  SameWhenCreated(TunnelsOf(insts, key.instance)[0]))))
  {
    hide Refresh, TunnelsOf, Seen, SameWhenCreated, UpdatedAll, Created, Panics;
    var once := Refresh(table, endpoint, insts, false);
    Reconciles(table, endpoint, insts, key);
    Reconciles(once, endpoint, insts, key);
    if key.endpoint == endpoint && key in once.named {
      SecondContent(table, key, TunnelsOf(insts, key.instance));
    }
  }

  /**
   Running a committed refresh again changes nothing exactly when no instance was newly created, by a
   single report, from a tunnel with an empty status, an empty log level or an empty service id: an
   insert fills in the column defaults and keeps the empty id, while the update that follows does not.
   */
  lemma {:induction false} IdempotentExactly(table: Table, endpoint: int, insts: seq<Instance>)
    requires !Panics(insts)
    ensures var once := Refresh(table, endpoint, insts, false);
            Refresh(once, endpoint, insts, false) == once <==>
            forall id :: CreatedOnce(table, endpoint, insts, id) ==> SameWhenCreated(TunnelsOf(insts, id)[0])
  {
    hide Refresh, SameWhenCreated, Panics;
    var once := Refresh(table, endpoint, insts, false);
    var twice := Refresh(once, endpoint, insts, false);
    SecondKeepsRest(table, endpoint, insts);
    hide TunnelsOf, Seen;
    if forall id :: CreatedOnce(table, endpoint, insts, id) ==> SameWhenCreated(TunnelsOf(insts, id)[0]) {
      forall key
        ensures (key in twice.named <==> key in once.named) &&
                (key in once.named ==> twice.named[key] == once.named[key])
      {
        SecondRefreshAt(table, endpoint, insts, key);
      }
      assert twice.named == once.named;
    } else {
      var id :| CreatedOnce(table, endpoint, insts, id) && !SameWhenCreated(TunnelsOf(insts, id)[0]);
      var key := Key(endpoint, id);
      SecondRefreshAt(table, endpoint, insts, key);
      Reconciles(table, endpoint, insts, key);
      SeenIsReported(insts, id);
      assert twice.named[key] != once.named[key];
    }
  }

  lemma SecondKeepsRest(table: Table, endpoint: int, insts: seq<Instance>)
    requires !Panics(insts)
    ensures var once := Refresh(table, endpoint, insts, false);
            var twice := Refresh(once, endpoint, insts, false);
            twice.unnamed == once.unnamed && twice.next == once.next
  {
    var once := Refresh(table, endpoint, insts, false);
    forall inst | inst in insts && inst.kind != "" ensures Key(endpoint, inst.id) in once.named {
      Reconciles(table, endpoint, insts, Key(endpoint, inst.id));
      assert inst.id in Seen(insts);
    }
    Reconciles(once, endpoint, insts, Key(endpoint, ""));
    NothingNew(once, endpoint, insts);
    hide ApplyAll, Seen;
  }

  /** From the second run on, a refresh with the same list changes nothing. */
  lemma ThirdRunChangesNothing(table: Table, endpoint: int, insts: seq<Instance>)
    requires !Panics(insts)
    ensures var twice := Refresh(Refresh(table, endpoint, insts, false), endpoint, insts, false);
            Refresh(twice, endpoint, insts, false) == twice
  {
    hide Refresh, SameWhenCreated, Panics;
    var once := Refresh(table, endpoint, insts, false);
    IdempotentExactly(once, endpoint, insts);
    forall id ensures !CreatedOnce(once, endpoint, insts, id) {
      Reconciles(table, endpoint, insts, Key(endpoint, id));
      SeenIsReported(insts, id);
    }
  }

  /**
   A tunnel without a log parameter has the empty log level, so one single new instance is enough to break the
   second run.
   */
  lemma NewTunnelIsRewritten(endpoint: int, inst: Instance)
    requires inst.kind != "" && inst.alias.Some? && inst.tunnel.logLevel == ""
    ensures var table := Table(map[], map[], 1);
            var once := Refresh(table, endpoint, [inst], false);
            Refresh(once, endpoint, [inst], false) != once
  {
    var table := Table(map[], map[], 1);
    assert [inst][..0] == [];
    assert TunnelsOf([inst], inst.id) == [] + [inst.tunnel];
    assert CreatedOnce(table, endpoint, [inst], inst.id) && !SameWhenCreated(TunnelsOf([inst], inst.id)[0]);
    hide Refresh;
    IdempotentExactly(table, endpoint, [inst]);
  }

  // ------------------------------------------------------------ rows made anew

  /**
   What a refresh stores for an instance that had no row. A single report's empty status and log level
   become the column defaults and its service id is stored as it stands; with more reports the last one
   decides, without defaults and without an empty service id. Optional columns and the peer come from
   the last report that has them.
   */
  lemma {:induction false} NewRowHolds(table: Table, endpoint: int, insts: seq<Instance>, id: string)
    requires !Panics(insts) && Key(endpoint, id) !in table.named && TunnelsOf(insts, id) != []
    ensures var key, ts, after := Key(endpoint, id), TunnelsOf(insts, id), Refresh(table, endpoint, insts, false);
            key in after.named && NewContent(after.named[key].content, ts)
  {
    hide Refresh, TunnelsOf, Panics, NewContent;
    var key, ts := Key(endpoint, id), TunnelsOf(insts, id);
    Reconciles(table, endpoint, insts, key);
    SeenIsReported(insts, id);
    NewContentHolds(ts);
  }

  predicate NewContent(c: Content, ts: seq<Tunnel>)
    requires ts != []
  {
    var last := ts[|ts| - 1];
    && c.fixed == last.fixed && c.optional == Overlay(ts) && c.peer == LastPeer(ts)
    && (last.status != "" || |ts| > 1 ==> c.status == last.status)
    && (last.status == "" && |ts| == 1 ==> c.status == "stopped")
    && (last.logLevel != "" || |ts| > 1 ==> c.logLevel == last.logLevel)
    && (last.logLevel == "" && |ts| == 1 ==> c.logLevel == "inherit")
    && (last.peer.None? ==> c.serviceSid == None)
    && (last.peer.Some? && last.peer.value.sid != Some("") ==> c.serviceSid == last.peer.value.sid)
    && (last.peer.Some? && last.peer.value.sid == Some("") ==> c.serviceSid == if |ts| == 1 then Some("") else None)
  }

  lemma NewContentHolds(ts: seq<Tunnel>)
    requires ts != []
    ensures NewContent(UpdatedAll(Created(ts[0]), ts[1..]), ts)
  {
    var first, rest := ts[0], ts[1..];
    CreatedKeeps(first);
    OverlayCons(first, rest);
    assert [first] + rest == ts;
    UpdatedOverlay(Created(first), rest);
    if rest == [] {
      UpdatedOnce(Created(first), first);
    } else {
      UpdatedByLast(Created(first), Created(first), rest);
      assert rest[|rest| - 1] == ts[|ts| - 1];
    }
    hide UpdatedAll, Overlay, LastPeer;
  }

  /** Every row has an id of its own, from the numbers already given out. */
  ghost predicate IdsDistinct(table: Table) {
    && (forall key :: key in table.named ==> table.named[key].id < table.next)
    && (forall a, b :: a in table.named && b in table.named && a != b ==> table.named[a].id != table.named[b].id)
  }

  lemma {:induction false} ApplyAllNumbers(table: Table, endpoint: int, insts: seq<Instance>)
    requires IdsDistinct(table)
    ensures var after := ApplyAll(table, endpoint, insts);
            && IdsDistinct(after) && after.next >= table.next
            && forall key :: key in after.named && key !in table.named ==> after.named[key].id >= table.next
  {
    if insts != [] {
      hide Created, Updated;
      ApplyAllNumbers(table, endpoint, insts[..|insts| - 1]);
    }
  }

  /** A refresh never gives two rows one id, and numbers every new row above all that were there. */
  lemma RefreshNumbers(table: Table, endpoint: int, insts: seq<Instance>, fails: bool)
    requires IdsDistinct(table)
    ensures var after := Refresh(table, endpoint, insts, fails);
            && IdsDistinct(after)
            && forall key :: key in after.named && key !in table.named ==> after.named[key].id >= table.next
  {
    hide ApplyAll, Seen, Panics;
    ApplyAllNumbers(table, endpoint, insts);
  }

  // ------------------------------------------------------------------ the code

  lemma {:induction false} NoneApplied(table: Table, endpoint: int)
    ensures ApplyAll(table, endpoint, []) == table && Seen([]) == {} && !Panics([])
  {
  }

  lemma {:induction false} OneMoreApplied(table: Table, endpoint: int, insts: seq<Instance>, inst: Instance)
    ensures var more := insts + [inst];
            && ApplyAll(table, endpoint, more) == ApplyOne(ApplyAll(table, endpoint, insts), endpoint, inst)
            && Seen(more) == Seen(insts) + (if inst.kind != "" then {inst.id} else {})
            && (Panics(more) <==> Panics(insts) || (inst.kind != "" && inst.alias.None?))
  {
    hide ApplyOne;
    var more := insts + [inst];
    assert more[..|insts|] == insts && more[|insts|] == inst;
    forall id ensures id in Seen(more) <==> id in Seen(insts) || (inst.kind != "" && id == inst.id) {
      if id in Seen(insts) {
        var other :| other in insts && other.kind != "" && other.id == id;
        assert other in more;
      }
    }
    if Panics(insts) {
      var i :| 0 <= i < |insts| && insts[i].kind != "" && insts[i].alias.None?;
      assert more[i] == insts[i];
    }
  }

  lemma PanicsEarly(insts: seq<Instance>, rest: seq<Instance>)
    ensures Panics(insts) ==> Panics(insts + rest)
  {
    if Panics(insts) {
      var i :| 0 <= i < |insts| && insts[i].kind != "" && insts[i].alias.None?;
      assert (insts + rest)[i] == insts[i];
    }
  }

  class EndpointHandler {
    /** The table `tunnels`. */
    var tunnels: Table

    /**
     `refreshTunnels`: the transaction works on a copy of the table. `faultAt` is the instance whose
     statements fail, or the number of instances for the sweep and the commit; anything else means none.
     */
    method RefreshTunnels(endpointID: int, instances: seq<Instance>, faultAt: int) returns (failed: bool)
      modifies this
      ensures failed <==> faultAt == |instances| || Panics(instances) ||
                          (0 <= faultAt < |instances| && instances[faultAt].kind != "")
      ensures tunnels == Refresh(old(tunnels), endpointID, instances, failed)
      ensures failed ==> tunnels == old(tunnels)
    {
      hide Created, Updated, ApplyAll, Seen, Panics, Sweep;
      NoneApplied(tunnels, endpointID);
      var instanceIDSet: set<string> := {};
      var tx := tunnels;
      for i := 0 to |instances|
        invariant tunnels == old(tunnels)
        invariant tx == ApplyAll(old(tunnels), endpointID, instances[..i]) && instanceIDSet == Seen(instances[..i])
        invariant !(0 <= faultAt < i && instances[faultAt].kind != "") && !Panics(instances[..i])
      {
        var inst := instances[i];
        OneMoreApplied(old(tunnels), endpointID, instances[..i], inst);
        assert instances[..i + 1] == instances[..i] + [inst];
        assert instances == instances[..i] + [inst] + instances[i + 1..];
        PanicsEarly(instances[..i] + [inst], instances[i + 1..]);
        if inst.kind != "" {
          if i == faultAt {
            return true;
          }
          instanceIDSet := instanceIDSet + {inst.id};
          if inst.alias.None? {
            return true;
          }
          var key := Key(endpointID, inst.id);
          if key !in tx.named {
            tx := tx.(named := tx.named[key := Row(tx.next, Created(inst.tunnel))], next := tx.next + 1);
          } else {
            tx := tx.(named := tx.named[key := Row(tx.named[key].id, Updated(tx.named[key].content, inst.tunnel))]);
          }
        }
      }
      assert instances[..|instances|] == instances;
      if faultAt == |instances| {
        return true;
      }
      tunnels := DeleteMissing(tx, endpointID, instanceIDSet);
      return false;
    }
  }

  method DeleteMissing(table: Table, endpointID: int, seen: set<string>) returns (swept: Table)
    ensures swept == Sweep(table, endpointID, seen)
  {
    swept := table;
    var pending := table.named.Keys;
    while pending != {}
      invariant pending <= table.named.Keys
      invariant swept == table.(named :=
        map key | key in table.named && (key in pending || key.endpoint != endpointID || key.instance in seen) ::
          table.named[key])
      decreases pending
    {
      var key :| key in pending;
      pending := pending - {key};
      if key.endpoint == endpointID && key.instance !in seen {
        swept := swept.(named := swept.named - {key});
      }
    }
  }
}
