/** The sync protocol as a step system: any requests commit between any two of the seven statements of a
    pull, and a client merges what it is sent. */
module PullRun {
  import opened Wrappers
  import opened SyncTypes
  import opened Lww
  import opened PullView
  import LwwJoin

  /** What a device has pulled so far: rows by table and id, and the log of each borehole. */
  datatype Replica = Replica(rows: map<Key, Row>, logs: map<Uuid, map<Uuid, IntervalRow>>)

  /** A pull in flight remembers its watermark and the databases its statements have read. */
  datatype Phase = Idle | Pulling(watermark: int, seen: seq<Db>)

  datatype Client = Client(cursor: int, replica: Replica, phase: Phase)

  datatype Sys = Sys(now: int, db: Db, client: Client)

  /** What is assumed of the commits of a run. */
  datatype Rules =
    | Anything
    | InWindow // no row the client knows leaves its project, and what comes in lies in its table's next window
    | Timely(maxLag: int, pinned: bool) // no row is later than that after its stamp; entities keep their project

  datatype Action =
    | Tick(ms: nat)
    | Commit(w: Write)
    | Office(id: Uuid, row: Row) // a concession is entered or edited from the back office
    | Begin
    | Query
    | Finish(a: Answers)
    | Abort

  /** The statement of a pull that reads each table; the fifth is followed by the interval select. */
  function QueryOf(kind: Kind): nat {
    match kind
    case Stations => 0
    case Measurements => 1
    case Samples => 2
    case Vegetation => 3
    case Boreholes => 4
    case Concessions => 6
  }

  function ItemsOf(a: Answers, kind: Kind): seq<Item> {
    match kind
    case Stations => a.stations
    case Measurements => a.measurements
    case Samples => a.samples
    case Vegetation => a.vegetation
    case Boreholes => a.headers
    case Concessions => a.concessions
  }

  /** The answers a pull can have got from the databases it read; no header, no interval query. */
  ghost predicate Answered(project: Uuid, since: int, seen: seq<Db>, a: Answers)
    requires |seen| == QUERIES
  {
    && (forall kind: Kind :: IsSelect(seen[QueryOf(kind)], kind, project, since, ItemsOf(a, kind)))
    && if a.headers == [] then a.intervals == []
       else IsIntervalSelect(seen[INTERVAL_QUERY], project, since, a.intervals)
  }

  // ---------- the client's merge: overwrite by id when the incoming stamp is newer or equal ----------

  predicate Takes(rows: map<Key, Row>, k: Key, row: Row) {
    k in rows ==> rows[k].stamp <= row.stamp
  }

  function TakeItems(rows: map<Key, Row>, kind: Kind, items: seq<Item>): map<Key, Row> {
    if items == [] then rows
    else
      var before := TakeItems(rows, kind, items[..|items| - 1]);
      var it := items[|items| - 1];
      if Takes(before, Key(kind, it.id), it.row) then before[Key(kind, it.id) := it.row] else before
  }

  function LogMap(items: seq<IntervalItem>): map<Uuid, IntervalRow> {
    if items == [] then map[]
    else LogMap(items[..|items| - 1])[items[|items| - 1].id := items[|items| - 1].row]
  }

  function TakeLogs(rows: map<Key, Row>, logs: map<Uuid, map<Uuid, IntervalRow>>, views: seq<BoreholeView>)
    : map<Uuid, map<Uuid, IntervalRow>>
  {
    if views == [] then logs
    else
      var before := TakeLogs(rows, logs, views[..|views| - 1]);
      var v := views[|views| - 1];
      if Takes(rows, Key(Boreholes, v.id), v.row) then before[v.id := LogMap(v.intervals)] else before
  }

  function StationItems(views: seq<StationView>): seq<Item> {
    seq(|views|, i requires 0 <= i < |views| => Item(views[i].id, views[i].row))
  }

  function BoreholeItems(views: seq<BoreholeView>): seq<Item> {
    seq(|views|, i requires 0 <= i < |views| => Item(views[i].id, views[i].row))
  }

  function Merge(rep: Replica, r: PullResponse): Replica
    requires r.PullResponse?
  {
    var r1 := TakeItems(rep.rows, Stations, StationItems(r.stations));
    var r2 := TakeItems(r1, Measurements, r.measurements);
    var r3 := TakeItems(r2, Samples, r.samples);
    var r4 := TakeItems(r3, Vegetation, r.vegetation);
    var r5 := TakeItems(r4, Concessions, r.concessions);
    Replica(TakeItems(r5, Boreholes, BoreholeItems(r.boreholes)), TakeLogs(rep.rows, rep.logs, r.boreholes))
  }

  // ---------- steps ----------

  ghost predicate HomesStay(db: Db, db': Db) {
    forall k | k in db.rows :: Home(db', k) == Home(db, k)
  }

  /** Where the window begins with which a table is read next, unless the pull in flight is aborted. */
  function Window(c: Client, kind: Kind): int {
    Since(if c.phase.Pulling? && QueryOf(kind) < |c.phase.seen| then c.phase.watermark else c.cursor)
  }

  /** The project has the same version of this entity before and after. */
  ghost predicate Kept(project: Uuid, db: Db, db': Db, k: Key) {
    Home(db, k) == Some(project) && Home(db', k) == Some(project) && LwwJoin.SameEntity(db, db', k)
  }

  /** The replica holds a row for this entity, or the pull in flight has read one. */
  ghost predicate Knows(project: Uuid, c: Client, k: Key) {
    || k in c.replica.rows
    || (c.phase.Pulling? && QueryOf(k.kind) < |c.phase.seen|
        && Selected(c.phase.seen[QueryOf(k.kind)], k, project, Since(c.cursor)))
  }

  /** Nothing the client knows leaves the project; what is changed or comes in lies in the window of its table. */
  ghost predicate Arrives(project: Uuid, c: Client, db: Db, db': Db) {
    && (forall k | Knows(project, c, k) && Home(db, k) == Some(project) :: Home(db', k) == Some(project))
    && forall k | Home(db', k) == Some(project) :: Kept(project, db, db', k) || db'.rows[k].stamp >= Window(c, k.kind)
  }

  /** The rules allow the database to become `db'` by a write with this stamp. */
  ghost predicate Allows(project: Uuid, rules: Rules, s: Sys, db': Db, stamp: int) {
    match rules
    case Anything => true
    case InWindow => Arrives(project, s.client, s.db, db')
    case Timely(maxLag, pinned) => 0 <= stamp && s.now - stamp <= maxLag && (pinned ==> HomesStay(s.db, db'))
  }

  /** The rules under which pulls are complete. */
  predicate Suffices(rules: Rules) {
    rules.InWindow? || (rules.Timely? && rules.maxLag <= PULL_OVERLAP_MS && rules.pinned)
  }

  function Entered(db: Db, id: Uuid, row: Row): Db {
    db.(rows := db.rows[Key(Concessions, id) := row])
  }

  ghost predicate Enabled(project: Uuid, rules: Rules, s: Sys, act: Action) {
    match act
    case Tick(ms) => s.now + ms <= INT64_MAX
    case Commit(w) =>
      Written(Step(s.db, w).status) ==> Allows(project, rules, s, Step(s.db, w).db, w.rec.stamp)
    case Office(id, row) =>
      var k := Key(Concessions, id);
      && row.parent in s.db.projects && !Collides(s.db.rows, k, row)
      && (k in s.db.rows ==> s.db.rows[k].stamp < row.stamp)
      && Allows(project, rules, s, Entered(s.db, id, row), row.stamp)
    case Begin => s.client.phase.Idle?
    case Query => s.client.phase.Pulling? && |s.client.phase.seen| < QUERIES
    case Finish(a) =>
      && s.client.phase.Pulling? && |s.client.phase.seen| == QUERIES
      && Answered(project, Since(s.client.cursor), s.client.phase.seen, a)
    case Abort => s.client.phase.Pulling?
  }

  function Next(s: Sys, act: Action): Sys {
    var c := s.client;
    match act
    case Tick(ms) => s.(now := s.now + ms)
    case Commit(w) => s.(db := Step(s.db, w).db)
    case Office(id, row) => s.(db := Entered(s.db, id, row))
    case Begin => s.(client := c.(phase := Pulling(s.now, [])))
    case Query =>
      if c.phase.Pulling? then s.(client := c.(phase := c.phase.(seen := c.phase.seen + [s.db]))) else s
    case Finish(a) =>
      if c.phase.Pulling? then
        var r := Respond(c.phase.watermark, a); // the client keeps the answer's timestamp as its next cursor
        s.(client := Client(r.serverTimestamp, Merge(c.replica, r), Idle))
      else s
    case Abort => s.(client := c.(phase := Idle))
  }

  ghost predicate Valid(project: Uuid, rules: Rules, s: Sys, acts: seq<Action>)
    decreases |acts|
  {
    acts == [] || (Enabled(project, rules, s, acts[0]) && Valid(project, rules, Next(s, acts[0]), acts[1..]))
  }

  function Exec(s: Sys, acts: seq<Action>): Sys
    decreases |acts|
  {
    if acts == [] then s else Exec(Next(s, acts[0]), acts[1..])
  }

  function Init(now: int, projects: set<Uuid>): Sys {
    Sys(now, Db(projects, map[], map[]), Client(0, Replica(map[], map[]), Idle))
  }

  // ---------- the invariant ----------

  /** The replica holds exactly this version of the entity. */
  ghost predicate Agrees(rep: Replica, db: Db, k: Key)
    requires k in db.rows
  {
    && k in rep.rows && rep.rows[k] == db.rows[k]
    && (k.kind == Boreholes ==> k.id in rep.logs && rep.logs[k.id] == LogOf(db.intervals, k.id))
  }

  /** Whatever the replica lacks lies inside the next delta window. */
  ghost predicate Caught(project: Uuid, rep: Replica, db: Db, since: int) {
    forall k | Home(db, k) == Some(project) :: Agrees(rep, db, k) || db.rows[k].stamp >= since
  }

  /** The replica invents nothing and is never ahead of the server. */
  ghost predicate Behind(project: Uuid, rep: Replica, db: Db) {
    forall k | k in rep.rows :: Home(db, k) == Some(project) && rep.rows[k].stamp <= db.rows[k].stamp
  }

  /** Nothing in this table leaves the project from `db` to `db'`. */
  ghost predicate Stays(project: Uuid, kind: Kind, db: Db, db': Db) {
    forall k: Key | k.kind == kind && Home(db, k) == Some(project) :: Home(db', k) == Some(project)
  }

  /** From `db` to `db'`, as far as this table of the project goes: nothing is dropped, no stamp falls, and what
      is changed or comes in carries a stamp of at least `since`. */
  ghost predicate Later(project: Uuid, kind: Kind, db: Db, db': Db, since: int) {
    && (forall k: Key | k.kind == kind && k in db.rows :: k in db'.rows && db.rows[k].stamp <= db'.rows[k].stamp)
    && forall k: Key | k.kind == kind && Home(db', k) == Some(project) ::
         Kept(project, db, db', k) || db'.rows[k].stamp >= since
  }

  /** The replica fits every database read so far, and what has changed since is sent again next time. */
  ghost predicate PullInv(project: Uuid, rep: Replica, cursor: int, db: Db, seen: seq<Db>, watermark: int) {
    var since := Since(watermark);
    && |seen| <= QUERIES
    && (forall q | q in seen :: Caught(project, rep, q, Since(cursor)) && Behind(project, rep, q))
    && (forall kind: Kind | QueryOf(kind) < |seen| ::
          Later(project, kind, seen[QueryOf(kind)], db, since) && Stays(project, kind, seen[QueryOf(kind)], db))
    && (INTERVAL_QUERY < |seen| ==>
          && Later(project, Boreholes, seen[QueryOf(Boreholes)], seen[INTERVAL_QUERY], since)
          && Stays(project, Boreholes, seen[QueryOf(Boreholes)], seen[INTERVAL_QUERY])
          && Later(project, Boreholes, seen[INTERVAL_QUERY], db, since))
  }

  /** No cursor or watermark lies in the future, and no pull goes on for ever. */
  ghost predicate Clocked(s: Sys) {
    var c := s.client;
    && 0 <= c.cursor <= s.now <= INT64_MAX
    && (c.phase.Pulling? ==> c.cursor <= c.phase.watermark <= s.now && |c.phase.seen| <= QUERIES)
  }

  ghost predicate Inv(project: Uuid, s: Sys) {
    var c := s.client;
    && Clocked(s)
    && Caught(project, c.replica, s.db, Since(c.cursor)) && Behind(project, c.replica, s.db)
    && (c.phase.Pulling? ==> PullInv(project, c.replica, c.cursor, s.db, c.phase.seen, c.phase.watermark))
  }

  lemma SinceMonotone(a: int, b: int)
    requires 0 <= a <= b <= INT64_MAX
    ensures 0 <= Since(a) <= Since(b) && (Since(b) == 0 || Since(b) == b - PULL_OVERLAP_MS)
  {
    SinceWindow(a);
    SinceWindow(b);
  }

  /** No commit lies outside the window if none comes later than the overlap and entities keep their project. */
  lemma TimelyArrives(project: Uuid, rules: Rules, s: Sys, db': Db, stamp: int)
    requires Clocked(s) && Suffices(rules) && Allows(project, rules, s, db', stamp)
    requires forall k | k in db'.rows :: LwwJoin.SameEntity(s.db, db', k) || db'.rows[k].stamp == stamp
    requires forall k | k in s.db.rows :: k in db'.rows
    ensures Arrives(project, s.client, s.db, db')
  {
    var c := s.client;
    SinceMonotone(c.cursor, s.now);
    if c.phase.Pulling? {
      SinceMonotone(c.phase.watermark, s.now);
    }
    SinceWindow(s.now);
  }

  lemma CommitArrives(project: Uuid, rules: Rules, s: Sys, w: Write)
    requires Clocked(s) && Suffices(rules) && Enabled(project, rules, s, Commit(w))
    ensures Arrives(project, s.client, s.db, Step(s.db, w).db) && Grows(s.db, Step(s.db, w).db)
  {
    StepEffect(s.db, w);
    if Written(Step(s.db, w).status) {
      TimelyArrives(project, rules, s, Step(s.db, w).db, w.rec.stamp);
    }
  }

  lemma OfficeArrives(project: Uuid, rules: Rules, s: Sys, id: Uuid, row: Row)
    requires Clocked(s) && Suffices(rules) && Enabled(project, rules, s, Office(id, row))
    ensures Arrives(project, s.client, s.db, Entered(s.db, id, row)) && Grows(s.db, Entered(s.db, id, row))
  {
    TimelyArrives(project, rules, s, Entered(s.db, id, row), row.stamp);
  }

  lemma LaterComposes(project: Uuid, kind: Kind, a: Db, b: Db, c: Db, since: int)
    requires Later(project, kind, a, b, since) && Later(project, kind, b, c, since)
    ensures Later(project, kind, a, c, since)
  {
    forall k: Key | k.kind == kind && Home(c, k) == Some(project)
      ensures Kept(project, a, c, k) || c.rows[k].stamp >= since
    {
      if Kept(project, b, c, k) {
        assert Kept(project, a, b, k) || b.rows[k].stamp >= since;
      }
    }
  }

  lemma CaughtSurvives(project: Uuid, c: Client, db: Db, db': Db)
    requires 0 <= c.cursor <= INT64_MAX
    requires c.phase.Pulling? ==> c.cursor <= c.phase.watermark <= INT64_MAX
    requires Caught(project, c.replica, db, Since(c.cursor)) && Behind(project, c.replica, db)
    requires Arrives(project, c, db, db') && Grows(db, db')
    ensures Caught(project, c.replica, db', Since(c.cursor)) && Behind(project, c.replica, db')
  {
    if c.phase.Pulling? {
      SinceMonotone(c.cursor, c.phase.watermark);
    }
    forall k | Home(db', k) == Some(project)
      ensures Agrees(c.replica, db', k) || db'.rows[k].stamp >= Since(c.cursor)
    {
      if Kept(project, db, db', k) {
        assert Agrees(c.replica, db, k) || db.rows[k].stamp >= Since(c.cursor);
      }
    }
  }

  /** Whatever was in the project when its table was read is known by now, so it stays. */
  lemma ReadStays(project: Uuid, s: Sys, db': Db, kind: Kind)
    requires Inv(project, s) && Arrives(project, s.client, s.db, db')
    requires s.client.phase.Pulling? && QueryOf(kind) < |s.client.phase.seen|
    ensures Stays(project, kind, s.client.phase.seen[QueryOf(kind)], db')
  {
    var c := s.client;
    var q := c.phase.seen[QueryOf(kind)];
    assert q in c.phase.seen && Stays(project, kind, q, s.db);
    forall k: Key | k.kind == kind && Home(q, k) == Some(project) ensures Home(db', k) == Some(project) {
      assert Agrees(c.replica, q, k) || Selected(q, k, project, Since(c.cursor));
      assert Knows(project, c, k);
    }
  }

  /** The database moves on; whatever pull is in flight stays consistent. */
  lemma DbMovesOn(project: Uuid, s: Sys, db': Db)
    requires Inv(project, s) && Arrives(project, s.client, s.db, db') && Grows(s.db, db')
    ensures Inv(project, s.(db := db'))
  {
    var c := s.client;
    CaughtSurvives(project, c, s.db, db');
    if c.phase.Pulling? {
      var seen, since := c.phase.seen, Since(c.phase.watermark);
      forall kind: Kind | QueryOf(kind) < |seen|
        ensures Later(project, kind, seen[QueryOf(kind)], db', since)
        ensures Stays(project, kind, seen[QueryOf(kind)], db')
      {
        assert Later(project, kind, s.db, db', since);
        LaterComposes(project, kind, seen[QueryOf(kind)], s.db, db', since);
        ReadStays(project, s, db', kind);
      }
      if INTERVAL_QUERY < |seen| {
        assert Later(project, Boreholes, s.db, db', since);
        LaterComposes(project, Boreholes, seen[INTERVAL_QUERY], s.db, db', since);
      }
    }
  }

  lemma LaterSelf(project: Uuid, kind: Kind, db: Db, since: int)
    ensures Later(project, kind, db, db, since)
  {
  }

  lemma QueryKeepsInv(project: Uuid, s: Sys)
    requires Inv(project, s) && s.client.phase.Pulling? && |s.client.phase.seen| < QUERIES
    ensures Inv(project, Next(s, Query))
  {
    var c := s.client;
    var since, seen := Since(c.phase.watermark), c.phase.seen + [s.db];
    forall kind: Kind | QueryOf(kind) < |seen| ensures Later(project, kind, seen[QueryOf(kind)], s.db, since) {
      LaterSelf(project, kind, s.db, since);
    }
    LaterSelf(project, Boreholes, s.db, since);
  }

  // ---------- the merge ----------

  ghost predicate SameAt(rows: map<Key, Row>, rows': map<Key, Row>, k: Key) {
    (k in rows <==> k in rows') && (k in rows ==> rows[k] == rows'[k])
  }

  lemma {:induction false} TakeItemsSkips(rows: map<Key, Row>, kind: Kind, items: seq<Item>, k: Key)
    requires k.kind != kind || forall it | it in items :: it.id != k.id
    ensures SameAt(rows, TakeItems(rows, kind, items), k)
  {
    if items != [] {
      TakeItemsSkips(rows, kind, items[..|items| - 1], k);
    }
  }

  lemma {:induction false} TakeItemsTakes(rows: map<Key, Row>, kind: Kind, items: seq<Item>, it: Item)
    requires DistinctIds(items) && it in items && Takes(rows, Key(kind, it.id), it.row)
    ensures var rows' := TakeItems(rows, kind, items);
            Key(kind, it.id) in rows' && rows'[Key(kind, it.id)] == it.row
  {
    var init, last := items[..|items| - 1], items[|items| - 1];
    assert items == init + [last];
    if it in init {
      TakeItemsTakes(rows, kind, init, it);
      assert it.id != last.id;
    } else {
      TakeItemsSkips(rows, kind, init, Key(kind, it.id));
    }
  }

  lemma {:induction false} LogMapMeaning(items: seq<IntervalItem>)
    requires forall i, j | 0 <= i < j < |items| :: items[i].id != items[j].id
    ensures forall it: IntervalItem :: it in items <==> it.id in LogMap(items) && LogMap(items)[it.id] == it.row
    ensures forall u | u in LogMap(items) :: exists it | it in items :: it.id == u
  {
    if items != [] {
      var init, last := items[..|items| - 1], items[|items| - 1];
      LogMapMeaning(init);
      assert items == init + [last];
      forall it: IntervalItem ensures it in items <==> it.id in LogMap(items) && LogMap(items)[it.id] == it.row {
        if it in init {
          assert it.id != last.id;
        }
      }
      assert forall u | u in LogMap(items) :: u != last.id ==> u in LogMap(init);
    }
  }

  lemma {:induction false} TakeLogsSkips(rows: map<Key, Row>, logs: map<Uuid, map<Uuid, IntervalRow>>,
                                         views: seq<BoreholeView>, b: Uuid)
    requires forall v | v in views :: v.id != b
    ensures var logs' := TakeLogs(rows, logs, views);
            (b in logs' <==> b in logs) && (b in logs ==> logs'[b] == logs[b])
  {
    if views != [] {
      TakeLogsSkips(rows, logs, views[..|views| - 1], b);
    }
  }

  lemma {:induction false} TakeLogsTakes(rows: map<Key, Row>, logs: map<Uuid, map<Uuid, IntervalRow>>,
                                         views: seq<BoreholeView>, i: nat)
    requires i < |views| && Takes(rows, Key(Boreholes, views[i].id), views[i].row)
    requires forall j | i < j < |views| :: views[j].id != views[i].id
    ensures var logs' := TakeLogs(rows, logs, views);
            views[i].id in logs' && logs'[views[i].id] == LogMap(views[i].intervals)
    decreases |views|
  {
    if i < |views| - 1 {
      TakeLogsTakes(rows, logs, views[..|views| - 1], i);
    }
  }

  /** Merging a response touches each table with its own list only: an id that is not listed stays. */
  lemma MergeSkips(rep: Replica, a: Answers, watermark: int, k: Key)
    requires forall it | it in ItemsOf(a, k.kind) :: it.id != k.id
    ensures SameAt(rep.rows, Merge(rep, Respond(watermark, a)).rows, k)
  {
    var r := Respond(watermark, a);
    assert StationItems(r.stations) == a.stations && BoreholeItems(r.boreholes) == a.headers;
    var r1 := TakeItems(rep.rows, Stations, a.stations);
    var r2 := TakeItems(r1, Measurements, a.measurements);
    var r3 := TakeItems(r2, Samples, a.samples);
    var r4 := TakeItems(r3, Vegetation, a.vegetation);
    var r5 := TakeItems(r4, Concessions, a.concessions);
    TakeItemsSkips(rep.rows, Stations, a.stations, k);
    TakeItemsSkips(r1, Measurements, a.measurements, k);
    TakeItemsSkips(r2, Samples, a.samples, k);
    TakeItemsSkips(r3, Vegetation, a.vegetation, k);
    TakeItemsSkips(r4, Concessions, a.concessions, k);
    TakeItemsSkips(r5, Boreholes, a.headers, k);
  }

  /** ... and a listed row is taken unless the replica already has a newer one. */
  lemma MergeTakes(rep: Replica, a: Answers, watermark: int, kind: Kind, it: Item)
    requires it in ItemsOf(a, kind) && DistinctIds(ItemsOf(a, kind)) && Takes(rep.rows, Key(kind, it.id), it.row)
    ensures var rows' := Merge(rep, Respond(watermark, a)).rows;
            Key(kind, it.id) in rows' && rows'[Key(kind, it.id)] == it.row
  {
    var r, k := Respond(watermark, a), Key(kind, it.id);
    assert StationItems(r.stations) == a.stations && BoreholeItems(r.boreholes) == a.headers;
    var r1 := TakeItems(rep.rows, Stations, a.stations);
    var r2 := TakeItems(r1, Measurements, a.measurements);
    var r3 := TakeItems(r2, Samples, a.samples);
    var r4 := TakeItems(r3, Vegetation, a.vegetation);
    var r5 := TakeItems(r4, Concessions, a.concessions);
    TakeEither(rep.rows, Stations, a.stations, kind, it);
    TakeEither(r1, Measurements, a.measurements, kind, it);
    TakeEither(r2, Samples, a.samples, kind, it);
    TakeEither(r3, Vegetation, a.vegetation, kind, it);
    TakeEither(r4, Concessions, a.concessions, kind, it);
    TakeEither(r5, Boreholes, a.headers, kind, it);
  }

  lemma TakeEither(rows: map<Key, Row>, table: Kind, items: seq<Item>, kind: Kind, it: Item)
    requires table == kind ==> it in items && DistinctIds(items) && Takes(rows, Key(kind, it.id), it.row)
    ensures var rows' := TakeItems(rows, table, items);
            if table == kind then Key(kind, it.id) in rows' && rows'[Key(kind, it.id)] == it.row
            else SameAt(rows, rows', Key(kind, it.id))
  {
    if table == kind {
      TakeItemsTakes(rows, kind, items, it);
    } else {
      TakeItemsSkips(rows, table, items, Key(kind, it.id));
    }
  }

  /** After the merge the replica's part of a table is exactly the project's rows of that table as its query
      saw them, tombstones included. */
  ghost predicate HoldsTable(project: Uuid, rep: Replica, q: Db, kind: Kind) {
    forall k: Key | k.kind == kind ::
      && (k in rep.rows <==> Home(q, k) == Some(project))
      && (k in rep.rows ==> rep.rows[k] == q.rows[k])
  }

  lemma MergeHoldsTable(project: Uuid, rep: Replica, cursor: int, db: Db, seen: seq<Db>, watermark: int, a: Answers,
      kind: Kind)
    requires PullInv(project, rep, cursor, db, seen, watermark) && |seen| == QUERIES
    requires Answered(project, Since(cursor), seen, a)
    ensures HoldsTable(project, Merge(rep, Respond(watermark, a)), seen[QueryOf(kind)], kind)
  {
    var q, since, rep' := seen[QueryOf(kind)], Since(cursor), Merge(rep, Respond(watermark, a));
    assert q in seen;
    assert IsSelect(q, kind, project, since, ItemsOf(a, kind));
    forall k: Key | k.kind == kind
      ensures k in rep'.rows <==> Home(q, k) == Some(project)
      ensures k in rep'.rows ==> rep'.rows[k] == q.rows[k]
    {
      if Selected(q, k, project, since) {
        MergeTakes(rep, a, watermark, kind, Item(k.id, q.rows[k]));
      } else {
        forall it | it in ItemsOf(a, kind) ensures it.id != k.id {
          assert Selected(q, Key(kind, it.id), project, since);
        }
        MergeSkips(rep, a, watermark, k);
      }
    }
  }

  /** A borehole in the delta gets the log the interval query saw. */
  lemma LogInDelta(project: Uuid, rep: Replica, q: Db, q': Db, since: int, headers: seq<Item>,
      ivs: seq<IntervalItem>, b: Uuid)
    requires IsSelect(q, Boreholes, project, since, headers) && IsIntervalSelect(q', project, since, ivs)
    requires Selected(q, Key(Boreholes, b), project, since) && Selected(q', Key(Boreholes, b), project, since)
    requires Takes(rep.rows, Key(Boreholes, b), q.rows[Key(Boreholes, b)])
    ensures var logs' := TakeLogs(rep.rows, rep.logs, NestIntervals(headers, ivs));
            b in logs' && logs'[b] == LogOf(q'.intervals, b)
  {
    var views, it := NestIntervals(headers, ivs), Item(b, q.rows[Key(Boreholes, b)]);
    assert it in headers;
    var i :| 0 <= i < |headers| && headers[i] == it;
    assert forall j | i < j < |views| :: headers[j].id != b;
    TakeLogsTakes(rep.rows, rep.logs, views, i);
    AttachedLogIsTheLog(q', project, since, headers, ivs, i);
    LogMapMeaning(views[i].intervals);
    SameMap(LogMap(views[i].intervals), LogOf(q'.intervals, b), views[i].intervals);
  }

  /** A borehole outside the delta keeps the log the replica has. */
  lemma LogOutsideDelta(project: Uuid, rep: Replica, q: Db, since: int, headers: seq<Item>, ivs: seq<IntervalItem>,
      b: Uuid)
    requires IsSelect(q, Boreholes, project, since, headers)
    requires !Selected(q, Key(Boreholes, b), project, since)
    ensures var logs' := TakeLogs(rep.rows, rep.logs, NestIntervals(headers, ivs));
            (b in logs' <==> b in rep.logs) && (b in rep.logs ==> logs'[b] == rep.logs[b])
  {
    var views := NestIntervals(headers, ivs);
    forall v | v in views ensures v.id != b {
      var i :| 0 <= i < |views| && views[i] == v;
      assert headers[i] in headers;
      assert Selected(q, Key(Boreholes, headers[i].id), project, since);
    }
    TakeLogsSkips(rep.rows, rep.logs, views, b);
  }

  /** Which database the replica's copy of a borehole log comes from: the interval query's when the borehole
      is in the delta, otherwise the header query's. */
  ghost predicate HoldsLog(project: Uuid, rep': Replica, cursor: int, seen: seq<Db>, b: Uuid)
    requires |seen| == QUERIES
  {
    var inDelta := Selected(seen[QueryOf(Boreholes)], Key(Boreholes, b), project, Since(cursor));
    b in rep'.logs
    && rep'.logs[b] == LogOf(seen[if inDelta then INTERVAL_QUERY else QueryOf(Boreholes)].intervals, b)
  }

  lemma MergeHoldsLog(project: Uuid, rep: Replica, cursor: int, db: Db, seen: seq<Db>, watermark: int, a: Answers,
      b: Uuid)
    requires PullInv(project, rep, cursor, db, seen, watermark) && |seen| == QUERIES
    requires Answered(project, Since(cursor), seen, a)
    requires Home(seen[QueryOf(Boreholes)], Key(Boreholes, b)) == Some(project)
    ensures HoldsLog(project, Merge(rep, Respond(watermark, a)), cursor, seen, b)
  {
    var k, since, q, q' := Key(Boreholes, b), Since(cursor), seen[QueryOf(Boreholes)], seen[INTERVAL_QUERY];
    assert q in seen && Later(project, Boreholes, q, q', Since(watermark)) && Stays(project, Boreholes, q, q');
    assert IsSelect(q, Boreholes, project, since, ItemsOf(a, Boreholes));
    if Selected(q, k, project, since) {
      assert Item(b, q.rows[k]) in a.headers;
      LogInDelta(project, rep, q, q', since, a.headers, a.intervals, b);
    } else {
      assert Agrees(rep, q, k);
      LogOutsideDelta(project, rep, q, since, a.headers, a.intervals, b);
    }
  }

  lemma SameMap(m: map<Uuid, IntervalRow>, m': map<Uuid, IntervalRow>, items: seq<IntervalItem>)
    requires forall it: IntervalItem :: it in items <==> it.id in m && m[it.id] == it.row
    requires forall it: IntervalItem :: it in items <==> it.id in m' && m'[it.id] == it.row
    ensures m == m'
  {
    forall u: Uuid
      ensures u in m <==> u in m'
      ensures u in m ==> m[u] == m'[u]
    {
      if u in m {
        assert IntervalItem(u, m[u]) in items;
      }
      if u in m' {
        assert IntervalItem(u, m'[u]) in items;
      }
    }
  }

  /** A pull has been answered; what it leaves in the replica, in the terms of the two lemmas above. */
  ghost predicate Settled(project: Uuid, rep': Replica, cursor: int, seen: seq<Db>)
    requires |seen| == QUERIES
  {
    && (forall kind: Kind :: HoldsTable(project, rep', seen[QueryOf(kind)], kind))
    && forall b: Uuid | Home(seen[QueryOf(Boreholes)], Key(Boreholes, b)) == Some(project) ::
         HoldsLog(project, rep', cursor, seen, b)
  }

  lemma MergeSettles(project: Uuid, rep: Replica, cursor: int, db: Db, seen: seq<Db>, watermark: int, a: Answers)
    requires PullInv(project, rep, cursor, db, seen, watermark) && |seen| == QUERIES
    requires Answered(project, Since(cursor), seen, a)
    ensures Settled(project, Merge(rep, Respond(watermark, a)), cursor, seen)
  {
    var rep' := Merge(rep, Respond(watermark, a));
    forall kind: Kind ensures HoldsTable(project, rep', seen[QueryOf(kind)], kind) {
      MergeHoldsTable(project, rep, cursor, db, seen, watermark, a, kind);
    }
    forall b: Uuid | Home(seen[QueryOf(Boreholes)], Key(Boreholes, b)) == Some(project)
      ensures HoldsLog(project, rep', cursor, seen, b)
    {
      MergeHoldsLog(project, rep, cursor, db, seen, watermark, a, b);
    }
  }

  /** What a settled replica lacks of the present database lies in the window of the new cursor. */
  lemma SettledIsCaught(project: Uuid, rep: Replica, rep': Replica, cursor: int, db: Db, seen: seq<Db>,
      watermark: int, k: Key)
    requires PullInv(project, rep, cursor, db, seen, watermark) && |seen| == QUERIES
    requires Settled(project, rep', cursor, seen)
    requires Home(db, k) == Some(project) && db.rows[k].stamp < Since(watermark)
    ensures Agrees(rep', db, k)
  {
    var q, since := seen[QueryOf(k.kind)], Since(watermark);
    assert Later(project, k.kind, q, db, since) && Kept(project, q, db, k);
    assert HoldsTable(project, rep', q, k.kind);
    if k.kind == Boreholes {
      assert k == Key(Boreholes, k.id) && HoldsLog(project, rep', cursor, seen, k.id);
      assert Later(project, Boreholes, seen[INTERVAL_QUERY], db, since);
    }
  }

  lemma SettledIsBehind(project: Uuid, rep: Replica, rep': Replica, cursor: int, db: Db, seen: seq<Db>,
      watermark: int, k: Key)
    requires PullInv(project, rep, cursor, db, seen, watermark) && |seen| == QUERIES
    requires Settled(project, rep', cursor, seen) && k in rep'.rows
    ensures Home(db, k) == Some(project) && rep'.rows[k].stamp <= db.rows[k].stamp
  {
    var q := seen[QueryOf(k.kind)];
    assert Later(project, k.kind, q, db, Since(watermark)) && Stays(project, k.kind, q, db);
    assert HoldsTable(project, rep', q, k.kind);
  }

  lemma SettledIsCaughtUp(project: Uuid, rep: Replica, rep': Replica, cursor: int, db: Db, seen: seq<Db>,
      watermark: int)
    requires PullInv(project, rep, cursor, db, seen, watermark) && |seen| == QUERIES
    requires Settled(project, rep', cursor, seen)
    ensures Caught(project, rep', db, Since(watermark)) && Behind(project, rep', db)
  {
    forall k | Home(db, k) == Some(project) ensures Agrees(rep', db, k) || db.rows[k].stamp >= Since(watermark) {
      if db.rows[k].stamp < Since(watermark) {
        SettledIsCaught(project, rep, rep', cursor, db, seen, watermark, k);
      }
    }
    forall k | k in rep'.rows ensures Home(db, k) == Some(project) && rep'.rows[k].stamp <= db.rows[k].stamp {
      SettledIsBehind(project, rep, rep', cursor, db, seen, watermark, k);
    }
  }

  lemma NewCursor(project: Uuid, s: Sys, a: Answers)
    requires Inv(project, s) && s.client.phase.Pulling?
    requires var rep' := Merge(s.client.replica, Respond(s.client.phase.watermark, a));
             Caught(project, rep', s.db, Since(s.client.phase.watermark)) && Behind(project, rep', s.db)
    ensures Inv(project, Next(s, Finish(a)))
  {
  }

  lemma MergeCatchesUp(project: Uuid, rep: Replica, cursor: int, db: Db, seen: seq<Db>, watermark: int, a: Answers)
    requires PullInv(project, rep, cursor, db, seen, watermark) && |seen| == QUERIES
    requires Answered(project, Since(cursor), seen, a)
    ensures Caught(project, Merge(rep, Respond(watermark, a)), db, Since(watermark))
    ensures Behind(project, Merge(rep, Respond(watermark, a)), db)
  {
    MergeSettles(project, rep, cursor, db, seen, watermark, a);
    SettledIsCaughtUp(project, rep, Merge(rep, Respond(watermark, a)), cursor, db, seen, watermark);
  }

  lemma FinishKeepsInv(project: Uuid, s: Sys, a: Answers)
    requires Inv(project, s) && s.client.phase.Pulling? && |s.client.phase.seen| == QUERIES
    requires Answered(project, Since(s.client.cursor), s.client.phase.seen, a)
    ensures Inv(project, Next(s, Finish(a)))
  {
    var c := s.client;
    MergeCatchesUp(project, c.replica, c.cursor, s.db, c.phase.seen, c.phase.watermark, a);
    NewCursor(project, s, a);
  }

  lemma NextKeepsInv(project: Uuid, rules: Rules, s: Sys, act: Action)
    requires Suffices(rules) && Inv(project, s) && Enabled(project, rules, s, act)
    ensures Inv(project, Next(s, act))
  {
    match act
    case Tick(ms) =>
    case Commit(w) =>
      CommitArrives(project, rules, s, w);
      DbMovesOn(project, s, Step(s.db, w).db);
    case Office(id, row) =>
      OfficeArrives(project, rules, s, id, row);
      DbMovesOn(project, s, Entered(s.db, id, row));
    case Begin =>
    case Query => QueryKeepsInv(project, s);
    case Finish(a) => FinishKeepsInv(project, s, a);
    case Abort =>
  }

  lemma {:induction false} ExecKeepsInv(project: Uuid, rules: Rules, s: Sys, acts: seq<Action>)
    requires Suffices(rules) && Inv(project, s) && Valid(project, rules, s, acts)
    ensures Inv(project, Exec(s, acts))
    decreases |acts|
  {
    if acts != [] {
      NextKeepsInv(project, rules, s, acts[0]);
      ExecKeepsInv(project, rules, Next(s, acts[0]), acts[1..]);
    }
  }

  /** What others do meanwhile: any push goes through the upsert, the office stores what it enters under a known
      project unless another license has the code, and a client may give up a pull at any point. */
  lemma OthersAct(project: Uuid, s: Sys, w: Write, id: Uuid, row: Row)
    ensures Enabled(project, Anything, s, Commit(w))
    ensures Next(s, Commit(w)) == s.(db := Step(s.db, w).db)
    ensures var k := Key(Concessions, id);
            && (Enabled(project, Anything, s, Office(id, row)) <==>
                  && row.parent in s.db.projects
                  && (k in s.db.rows ==> s.db.rows[k].stamp < row.stamp)
                  && forall k' | k' in s.db.rows && k'.kind == Concessions && k'.id != id ::
                       s.db.rows[k'].parent != row.parent || s.db.rows[k'].code != row.code)
            && (var s' := Next(s, Office(id, row));
                && s'.client == s.client && s'.db.intervals == s.db.intervals
                && k in s'.db.rows && s'.db.rows[k] == row
                && forall k' | k' != k :: (k' in s'.db.rows <==> k' in s.db.rows)
                                          && (k' in s.db.rows ==> s'.db.rows[k'] == s.db.rows[k']))
    ensures s.client.phase.Pulling? ==>
              Enabled(project, Anything, s, Abort)
              && Next(s, Abort) == s.(client := s.client.(phase := Idle))
  {
  }

  // ---------- the theorems ----------

  /** Pull completeness. Over every run in which nothing the client knows leaves the project and whatever it
      gains lies in the window its table is read with next, as when no row is committed later than the overlap
      after its stamp and entities keep their project, each completed pull leaves the replica holding, table by
      table, exactly the project's rows as that table's query saw them. Each borehole's log is the one seen with
      the headers, or the interval query's if the borehole was in the delta. */
  lemma PullIsComplete(project: Uuid, rules: Rules, now: int, projects: set<Uuid>, acts: seq<Action>, a: Answers)
    requires 0 <= now <= INT64_MAX && Suffices(rules)
    requires var s := Exec(Init(now, projects), acts);
             Valid(project, rules, Init(now, projects), acts) && Enabled(project, rules, s, Finish(a))
    ensures var s := Exec(Init(now, projects), acts);
            Settled(project, Next(s, Finish(a)).client.replica, s.client.cursor, s.client.phase.seen)
  {
    var s := Exec(Init(now, projects), acts);
    ExecKeepsInv(project, rules, Init(now, projects), acts);
    var c := s.client;
    MergeSettles(project, c.replica, c.cursor, s.db, c.phase.seen, c.phase.watermark, a);
  }

  /** Nothing is ever lost: at every moment of every such run, an entity of the project is either held by the
      replica, log included, in its present version, or lies in the window of the next pull. */
  lemma NothingFallsBehind(project: Uuid, rules: Rules, now: int, projects: set<Uuid>, acts: seq<Action>, k: Key)
    requires 0 <= now <= INT64_MAX && Suffices(rules)
    requires Valid(project, rules, Init(now, projects), acts)
    requires Home(Exec(Init(now, projects), acts).db, k) == Some(project)
    ensures var s := Exec(Init(now, projects), acts);
            Agrees(s.client.replica, s.db, k) || Selected(s.db, k, project, Since(s.client.cursor))
  {
    ExecKeepsInv(project, rules, Init(now, projects), acts);
  }

  /** The replica holds exactly the project. */
  ghost predicate EqualsProject(project: Uuid, rep: Replica, db: Db) {
    forall k :: (k in rep.rows <==> Home(db, k) == Some(project)) && (k in rep.rows ==> Agrees(rep, db, k))
  }

  lemma SettledOnOneDb(project: Uuid, rep': Replica, cursor: int, seen: seq<Db>, db: Db)
    requires |seen| == QUERIES && Settled(project, rep', cursor, seen) && forall q | q in seen :: q == db
    ensures EqualsProject(project, rep', db)
  {
    forall k: Key
      ensures k in rep'.rows <==> Home(db, k) == Some(project)
      ensures k in rep'.rows ==> Agrees(rep', db, k)
    {
      assert seen[QueryOf(k.kind)] in seen && seen[INTERVAL_QUERY] in seen;
      assert HoldsTable(project, rep', seen[QueryOf(k.kind)], k.kind);
      if k.kind == Boreholes && Home(db, k) == Some(project) {
        assert k == Key(Boreholes, k.id);
        assert HoldsLog(project, rep', cursor, seen, k.id);
      }
    }
  }

  /** A pull during which nothing is committed makes the replica equal to the project. */
  lemma QuietPullConverges(project: Uuid, rules: Rules, now: int, projects: set<Uuid>, acts: seq<Action>, a: Answers)
    requires 0 <= now <= INT64_MAX && Suffices(rules)
    requires var s := Exec(Init(now, projects), acts);
             && Valid(project, rules, Init(now, projects), acts) && Enabled(project, rules, s, Finish(a))
             && forall q | q in s.client.phase.seen :: q == s.db
    ensures var s := Next(Exec(Init(now, projects), acts), Finish(a));
            EqualsProject(project, s.client.replica, s.db)
  {
    PullIsComplete(project, rules, now, projects, acts, a);
    var s := Exec(Init(now, projects), acts);
    SettledOnOneDb(project, Next(s, Finish(a)).client.replica, s.client.cursor, s.client.phase.seen, s.db);
  }

  /** A completed pull pairs a borehole's row with another edit's log exactly when the borehole was in the
      delta and its log changed between the two statements; and then the present version of the borehole lies
      in the window of the next pull, which repairs the copy. */
  lemma TornCopiesAreSentAgain(project: Uuid, rules: Rules, now: int, projects: set<Uuid>, acts: seq<Action>,
      a: Answers, b: Uuid)
    requires 0 <= now <= INT64_MAX && Suffices(rules)
    requires var s := Exec(Init(now, projects), acts);
             Valid(project, rules, Init(now, projects), acts) && Enabled(project, rules, s, Finish(a))
    requires var seen := Exec(Init(now, projects), acts).client.phase.seen;
             Home(seen[QueryOf(Boreholes)], Key(Boreholes, b)) == Some(project)
    ensures var s := Exec(Init(now, projects), acts);
            var s' := Next(s, Finish(a));
            var k, seen := Key(Boreholes, b), s.client.phase.seen;
            var q, q' := seen[QueryOf(Boreholes)], seen[INTERVAL_QUERY];
            && k in s'.client.replica.rows && s'.client.replica.rows[k] == q.rows[k]
            && b in s'.client.replica.logs
            && (s'.client.replica.logs[b] != LogOf(q.intervals, b) <==>
                  Selected(q, k, project, Since(s.client.cursor)) && LogOf(q'.intervals, b) != LogOf(q.intervals, b))
            && (s'.client.replica.logs[b] != LogOf(q.intervals, b) ==>
                  Selected(s'.db, k, project, Since(s'.client.cursor)))
  {
    PullIsComplete(project, rules, now, projects, acts, a);
    ExecKeepsInv(project, rules, Init(now, projects), acts);
    var s := Exec(Init(now, projects), acts);
    var k, seen, since := Key(Boreholes, b), s.client.phase.seen, Since(s.client.phase.watermark);
    var q, q' := seen[QueryOf(Boreholes)], seen[INTERVAL_QUERY];
    assert Later(project, Boreholes, q, q', since) && Later(project, Boreholes, q', s.db, since);
    assert HoldsTable(project, Next(s, Finish(a)).client.replica, q, Boreholes);
    assert HoldsLog(project, Next(s, Finish(a)).client.replica, s.client.cursor, seen, b);
  }
}
