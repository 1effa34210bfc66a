/** How tight the pull protocol is: what breaks, exactly, when an assumption of its completeness is dropped. */
module PullBound {
  import opened Wrappers
  import opened SyncTypes
  import opened Conflict
  import opened Validation
  import opened Lww
  import opened PullView
  import opened PullRun

  // ---------- the first pull ----------

  ghost predicate ReturnsEverything(cursor: int) {
    forall db: Db, k: Key, project: Uuid | Home(db, k) == Some(project) && 0 <= db.rows[k].stamp ::
      Selected(db, k, project, Since(cursor))
  }

  /** A pull returns every non-negatively stamped row exactly when its cursor is at most the overlap and the
      subtraction of the overlap does not wrap around. */
  lemma ReturnsEverythingWhen(cursor: int)
    requires INT64_MIN <= cursor <= INT64_MAX
    ensures ReturnsEverything(cursor) <==> INT64_MIN + PULL_OVERLAP_MS <= cursor <= PULL_OVERLAP_MS
  {
    SinceWindow(cursor);
    if Since(cursor) > 0 {
      var k := Key(Stations, 0);
      var db := Db({0}, map[k := Row(0, "ST-1", Finite(0.0), Finite(0.0), "", 0, false)], map[]);
      assert Home(db, k) == Some(0) && !Selected(db, k, 0, Since(cursor));
    }
  }

  // ---------- runs put together ----------

  lemma {:induction false} RunsConcat(project: Uuid, rules: Rules, s: Sys, a: seq<Action>, b: seq<Action>)
    ensures Exec(s, a + b) == Exec(Exec(s, a), b)
    ensures Valid(project, rules, s, a + b) <==> Valid(project, rules, s, a) && Valid(project, rules, Exec(s, a), b)
    decreases |a|
  {
    if a == [] {
      assert a + b == b;
    } else {
      assert (a + b)[1..] == a[1..] + b;
      RunsConcat(project, rules, Next(s, a[0]), a[1..], b);
    }
  }

  lemma OneStep(project: Uuid, rules: Rules, s: Sys, act: Action)
    ensures Exec(s, [act]) == Next(s, act)
    ensures Valid(project, rules, s, [act]) <==> Enabled(project, rules, s, act)
  {
    assert [act][1..] == [];
  }

  function Repeat<T>(x: T, n: nat): seq<T> {
    seq(n, i => x)
  }

  /** `n` statements of a pull with no commit in between. */
  lemma {:induction false} QueriesRun(project: Uuid, rules: Rules, s: Sys, n: nat)
    requires s.client.phase.Pulling? && |s.client.phase.seen| + n <= QUERIES
    ensures Valid(project, rules, s, Repeat(Query, n))
    ensures Exec(s, Repeat(Query, n))
            == s.(client := s.client.(phase := s.client.phase.(seen := s.client.phase.seen + Repeat(s.db, n))))
    decreases n
  {
    if n == 0 {
      assert s.client.phase.seen + Repeat(s.db, 0) == s.client.phase.seen;
    } else {
      var s' := Next(s, Query);
      QueriesRun(project, rules, s', n - 1);
      assert Repeat(Query, n)[1..] == Repeat(Query, n - 1);
      assert s'.client.phase.seen + Repeat(s.db, n - 1) == s.client.phase.seen + Repeat(s.db, n);
    }
  }

  /** A pull without interruption. */
  function OnePull(a: Answers): seq<Action> {
    [Begin] + Repeat(Query, QUERIES) + [Finish(a)]
  }

  lemma OnePullRuns(project: Uuid, rules: Rules, s: Sys, a: Answers)
    requires s.client.phase.Idle? && Answered(project, Since(s.client.cursor), Repeat(s.db, QUERIES), a)
    ensures Valid(project, rules, s, OnePull(a))
    ensures Exec(s, OnePull(a)) == s.(client := Client(s.now, Merge(s.client.replica, Respond(s.now, a)), Idle))
  {
    var s1 := Next(s, Begin);
    var s2 := s1.(client := s1.client.(phase := Pulling(s.now, Repeat(s.db, QUERIES))));
    OneStep(project, rules, s, Begin);
    QueriesRun(project, rules, s1, QUERIES);
    assert s1.client.phase.seen + Repeat(s.db, QUERIES) == Repeat(s.db, QUERIES);
    RunsConcat(project, rules, s, [Begin], Repeat(Query, QUERIES));
    OneStep(project, rules, s2, Finish(a));
    RunsConcat(project, rules, s, [Begin] + Repeat(Query, QUERIES), [Finish(a)]);
  }

  const NOTHING: Answers := Answers([], [], [], [], [], [], [])

  const EMPTY_PULL: seq<Action> := OnePull(NOTHING)

  /** A pull of a project without any row only moves the cursor to its watermark. */
  lemma EmptyPullRuns(project: Uuid, rules: Rules, s: Sys)
    requires s.client.phase.Idle? && forall k :: Home(s.db, k) != Some(project)
    ensures Valid(project, rules, s, EMPTY_PULL)
    ensures Exec(s, EMPTY_PULL) == s.(client := Client(s.now, s.client.replica, Idle))
  {
    NothingAnswers(project, Since(s.client.cursor), s.db);
    OnePullRuns(project, rules, s, NOTHING);
    NothingMerges(s.client.replica, s.now);
  }

  lemma NothingAnswers(project: Uuid, since: int, db: Db)
    requires forall k :: Home(db, k) != Some(project)
    ensures Answered(project, since, Repeat(db, QUERIES), NOTHING)
  {
  }

  lemma NothingMerges(rep: Replica, watermark: int)
    ensures Merge(rep, Respond(watermark, NOTHING)) == rep
  {
    var r := Respond(watermark, NOTHING);
    assert r.stations == [] && StationItems(r.stations) == [];
    assert r.boreholes == [] && BoreholeItems(r.boreholes) == [];
  }

  // ---------- what a merge can bring ----------

  lemma {:induction false} TakeSource(rows: map<Key, Row>, kind: Kind, items: seq<Item>, k: Key)
    ensures var rows' := TakeItems(rows, kind, items);
            SameAt(rows, rows', k) || (kind == k.kind && k in rows' && Item(k.id, rows'[k]) in items)
  {
    if items != [] {
      TakeSource(rows, kind, items[..|items| - 1], k);
    }
  }

  /** A row of the merged replica was there before or is in the answer for its table. */
  lemma MergeSource(rep: Replica, a: Answers, watermark: int, k: Key)
    ensures var rows' := Merge(rep, Respond(watermark, a)).rows;
            SameAt(rep.rows, rows', k) || (k in rows' && Item(k.id, rows'[k]) in ItemsOf(a, k.kind))
  {
    var r := Respond(watermark, a);
    assert StationItems(r.stations) == a.stations && BoreholeItems(r.boreholes) == a.headers;
    var r1 := TakeItems(rep.rows, Stations, a.stations);
    var r2 := TakeItems(r1, Measurements, a.measurements);
    var r3 := TakeItems(r2, Samples, a.samples);
    var r4 := TakeItems(r3, Vegetation, a.vegetation);
    var r5 := TakeItems(r4, Concessions, a.concessions);
    TakeSource(rep.rows, Stations, a.stations, k);
    TakeSource(r1, Measurements, a.measurements, k);
    TakeSource(r2, Samples, a.samples, k);
    TakeSource(r3, Vegetation, a.vegetation, k);
    TakeSource(r4, Concessions, a.concessions, k);
    TakeSource(r5, Boreholes, a.headers, k);
  }

  // ---------- a missed row stays missed ----------

  /** Neither the replica nor the pull in flight has seen row `k` with this or a later stamp. */
  ghost predicate Unread(project: Uuid, c: Client, k: Key, stamp: int) {
    && (k in c.replica.rows ==> c.replica.rows[k].stamp < stamp)
    && (c.phase.Pulling? && QueryOf(k.kind) < |c.phase.seen| ==>
          var q := c.phase.seen[QueryOf(k.kind)];
          Selected(q, k, project, Since(c.cursor)) ==> q.rows[k].stamp < stamp)
  }

  /** While row `k` is the version written with `stamp`, no window reaches down to it and the client lacks it. */
  ghost predicate Missed(project: Uuid, s: Sys, k: Key, stamp: int) {
    && Clocked(s) && k in s.db.rows && stamp <= s.db.rows[k].stamp
    && (s.db.rows[k].stamp == stamp ==> stamp < Window(s.client, k.kind) && Unread(project, s.client, k, stamp))
  }

  /** The pull in flight, if it has read this table, is not aborted. */
  ghost predicate NotAborted(s: Sys, acts: seq<Action>, kind: Kind)
    decreases |acts|
  {
    s.client.phase.Pulling? && QueryOf(kind) < |s.client.phase.seen| && acts != [] && !acts[0].Finish? ==>
      !acts[0].Abort? && NotAborted(Next(s, acts[0]), acts[1..], kind)
  }

  lemma FinishBringsNothing(project: Uuid, s: Sys, a: Answers, k: Key, stamp: int)
    requires s.client.phase.Pulling? && |s.client.phase.seen| == QUERIES
    requires Answered(project, Since(s.client.cursor), s.client.phase.seen, a)
    requires Unread(project, s.client, k, stamp)
    ensures Unread(project, Next(s, Finish(a)).client, k, stamp)
  {
    var c := s.client;
    assert IsSelect(c.phase.seen[QueryOf(k.kind)], k.kind, project, Since(c.cursor), ItemsOf(a, k.kind));
    MergeSource(c.replica, a, c.phase.watermark, k);
  }

  lemma MissedDespiteWrites(project: Uuid, rules: Rules, s: Sys, act: Action, k: Key, stamp: int)
    requires Missed(project, s, k, stamp) && Enabled(project, rules, s, act) && (act.Commit? || act.Office?)
    ensures Missed(project, Next(s, act), k, stamp)
  {
    if act.Commit? {
      StepEffect(s.db, act.w);
    }
    assert Next(s, act).client == s.client;
  }

  lemma MissedDespitePull(project: Uuid, rules: Rules, s: Sys, act: Action, k: Key, stamp: int)
    requires Missed(project, s, k, stamp) && Enabled(project, rules, s, act) && (act.Query? || act.Finish?)
    ensures Missed(project, Next(s, act), k, stamp)
  {
    SinceMonotone(s.client.cursor, s.client.phase.watermark);
    if act.Finish? && s.db.rows[k].stamp == stamp {
      FinishBringsNothing(project, s, act.a, k, stamp);
    }
  }

  lemma MissedStays(project: Uuid, rules: Rules, s: Sys, act: Action, k: Key, stamp: int)
    requires Missed(project, s, k, stamp) && Enabled(project, rules, s, act)
    requires act.Abort? && s.db.rows[k].stamp == stamp ==> stamp < Since(s.client.cursor)
    ensures Missed(project, Next(s, act), k, stamp)
  {
    if act.Commit? || act.Office? {
      MissedDespiteWrites(project, rules, s, act, k, stamp);
    } else if act.Query? || act.Finish? {
      MissedDespitePull(project, rules, s, act, k, stamp);
    }
  }

  /** In every continuation, under any rules, a missed row that nobody rewrites is never delivered. */
  lemma {:induction false} NeverDelivered(project: Uuid, rules: Rules, s: Sys, acts: seq<Action>, k: Key, stamp: int)
    requires Missed(project, s, k, stamp) && Valid(project, rules, s, acts)
    requires s.db.rows[k].stamp == stamp ==> stamp < Since(s.client.cursor) || NotAborted(s, acts, k.kind)
    ensures NotDelivered(Exec(s, acts), k, stamp)
    decreases |acts|
  {
    if acts != [] {
      if acts[0].Commit? {
        StepEffect(s.db, acts[0].w);
      }
      if acts[0].Finish? {
        SinceMonotone(s.client.cursor, s.client.phase.watermark);
      }
      MissedStays(project, rules, s, acts[0], k, stamp);
      NeverDelivered(project, rules, Next(s, acts[0]), acts[1..], k, stamp);
    }
  }

  /** Row `k` is stored, and unless it has been rewritten since `stamp` the client lacks it. */
  ghost predicate NotDelivered(s: Sys, k: Key, stamp: int) {
    && k in s.db.rows
    && (s.db.rows[k].stamp == stamp ==> k in s.client.replica.rows ==> s.client.replica.rows[k].stamp < stamp)
  }

  // ---------- a known row is kept ----------

  lemma FinishBringsKnown(project: Uuid, s: Sys, a: Answers, k: Key)
    requires s.client.phase.Pulling? && |s.client.phase.seen| == QUERIES
    requires Answered(project, Since(s.client.cursor), s.client.phase.seen, a)
    requires Knows(project, s.client, k)
    ensures k in Next(s, Finish(a)).client.replica.rows
  {
    var c := s.client;
    var q := c.phase.seen[QueryOf(k.kind)];
    assert IsSelect(q, k.kind, project, Since(c.cursor), ItemsOf(a, k.kind));
    MergeSource(c.replica, a, c.phase.watermark, k);
    if k !in c.replica.rows {
      MergeTakes(c.replica, a, c.phase.watermark, k.kind, Item(k.id, q.rows[k]));
    }
  }

  /** A row that the client knows and that has left the project stays with the client: nothing ever takes a row
      from a replica, and what a pull has read gets there unless that pull is aborted. */
  lemma {:induction false} ReplicaForgetsNothing(project: Uuid, rules: Rules, s: Sys, acts: seq<Action>, k: Key)
    requires Valid(project, rules, s, acts) && Knows(project, s.client, k)
    requires k in s.client.replica.rows || (NotAborted(s, acts, k.kind) && Exec(s, acts).client.phase.Idle?)
    ensures var s' := Exec(s, acts);
            && k in s'.client.replica.rows
            && (Home(s'.db, k) != Some(project) ==> !HoldsTable(project, s'.client.replica, s'.db, k.kind))
    decreases |acts|
  {
    if acts != [] {
      if acts[0].Finish? {
        FinishBringsKnown(project, s, acts[0].a, k);
      }
      ReplicaForgetsNothing(project, rules, Next(s, acts[0]), acts[1..], k);
    }
  }

  // ---------- an awaited row comes ----------

  /** The client holds the present version of the entity. */
  ghost predicate Delivered(s: Sys, k: Key) {
    k in s.db.rows && Agrees(s.client.replica, s.db, k)
  }

  /** Entity `k` stays in the project unchanged throughout. */
  ghost predicate LeftAlone(project: Uuid, s: Sys, acts: seq<Action>, k: Key)
    decreases |acts|
  {
    acts == [] || (Kept(project, s.db, Next(s, acts[0]).db, k) && LeftAlone(project, Next(s, acts[0]), acts[1..], k))
  }

  /** A pull that reads the table during the run, or before if `read`, is completed during the run. */
  ghost predicate Served(s: Sys, acts: seq<Action>, kind: Kind, read: bool)
    decreases |acts|
  {
    acts != []
    && var s' := Next(s, acts[0]);
       match acts[0]
       case Finish(_) => read || Served(s', acts[1..], kind, false)
       case Abort => Served(s', acts[1..], kind, false)
       case Query =>
         var now := s.client.phase.Pulling? && |s.client.phase.seen| == QueryOf(kind);
         Served(s', acts[1..], kind, read || now)
       case _ => Served(s', acts[1..], kind, read)
  }

  /** The replica has the present version, or lacks it and will be sent it by whatever pull reads it. */
  ghost predicate Awaited(project: Uuid, s: Sys, k: Key) {
    var c := s.client;
    && Clocked(s) && Home(s.db, k) == Some(project)
    && (c.phase.Pulling? ==>
          forall i | QueryOf(k.kind) <= i < |c.phase.seen| :: Kept(project, c.phase.seen[i], s.db, k))
    && (|| Agrees(c.replica, s.db, k)
        || (s.db.rows[k].stamp >= Since(c.cursor)
            && (k in c.replica.rows ==> c.replica.rows[k].stamp < s.db.rows[k].stamp)))
  }

  lemma FinishDelivers(project: Uuid, s: Sys, a: Answers, k: Key)
    requires Awaited(project, s, k) && s.client.phase.Pulling? && |s.client.phase.seen| == QUERIES
    requires Answered(project, Since(s.client.cursor), s.client.phase.seen, a)
    ensures Agrees(Next(s, Finish(a)).client.replica, s.db, k)
  {
    var rep, since, seen := s.client.replica, Since(s.client.cursor), s.client.phase.seen;
    var q, w := seen[QueryOf(k.kind)], s.client.phase.watermark;
    assert Kept(project, q, s.db, k);
    assert IsSelect(q, k.kind, project, since, ItemsOf(a, k.kind));
    if Selected(q, k, project, since) {
      MergeTakes(rep, a, w, k.kind, Item(k.id, q.rows[k]));
      if k.kind == Boreholes {
        assert Kept(project, seen[INTERVAL_QUERY], s.db, k);
        assert Item(k.id, q.rows[k]) in a.headers;
        LogInDelta(project, rep, q, seen[INTERVAL_QUERY], since, a.headers, a.intervals, k.id);
      }
    } else {
      assert forall it | it in ItemsOf(a, k.kind) :: Selected(q, Key(k.kind, it.id), project, since);
      MergeSkips(rep, a, w, k);
      if k.kind == Boreholes {
        LogOutsideDelta(project, rep, q, since, a.headers, a.intervals, k.id);
      }
    }
  }

  lemma AwaitedStays(project: Uuid, rules: Rules, s: Sys, act: Action, k: Key)
    requires Awaited(project, s, k) && Enabled(project, rules, s, act) && Kept(project, s.db, Next(s, act).db, k)
    ensures Awaited(project, Next(s, act), k)
    ensures act.Finish? || Agrees(s.client.replica, s.db, k) ==> Agrees(Next(s, act).client.replica, Next(s, act).db, k)
  {
    if act.Finish? {
      FinishDelivers(project, s, act.a, k);
    }
  }

  lemma {:induction false} AwaitedComes(project: Uuid, rules: Rules, s: Sys, acts: seq<Action>, k: Key, read: bool)
    requires Awaited(project, s, k) && Valid(project, rules, s, acts) && LeftAlone(project, s, acts, k)
    requires Agrees(s.client.replica, s.db, k) || Served(s, acts, k.kind, read)
    ensures Delivered(Exec(s, acts), k)
    decreases |acts|
  {
    if acts != [] {
      var s', now := Next(s, acts[0]), s.client.phase.Pulling? && |s.client.phase.seen| == QueryOf(k.kind);
      AwaitedStays(project, rules, s, acts[0], k);
      AwaitedComes(project, rules, s', acts[1..], k, !acts[0].Abort? && (read || (acts[0].Query? && now)));
    }
  }

  /** A row written after the pull in flight had read its table comes with the pull after that. */
  lemma {:induction false} StalledComes(project: Uuid, rules: Rules, s: Sys, acts: seq<Action>, k: Key)
    requires Clocked(s) && s.client.phase.Pulling? && QueryOf(k.kind) < |s.client.phase.seen|
    requires Home(s.db, k) == Some(project) && s.db.rows[k].stamp >= Since(s.client.phase.watermark)
    requires Unread(project, s.client, k, s.db.rows[k].stamp)
    requires Valid(project, rules, s, acts) && LeftAlone(project, s, acts, k)
    requires NotAborted(s, acts, k.kind) && Served(s, acts, k.kind, false)
    ensures Delivered(Exec(s, acts), k)
    decreases |acts|
  {
    var s' := Next(s, acts[0]);
    if acts[0].Finish? {
      FinishBringsNothing(project, s, acts[0].a, k, s.db.rows[k].stamp);
      AwaitedComes(project, rules, s', acts[1..], k, false);
    } else {
      StalledComes(project, rules, s', acts[1..], k);
    }
  }

  lemma {:induction false} LeftAloneStays(project: Uuid, s: Sys, acts: seq<Action>, k: Key)
    requires Home(s.db, k) == Some(project) && LeftAlone(project, s, acts, k)
    ensures Kept(project, s.db, Exec(s, acts).db, k)
    decreases |acts|
  {
    if acts != [] {
      LeftAloneStays(project, Next(s, acts[0]), acts[1..], k);
    }
  }

  /** Delivery is exact. Take any entity of the project whose present version the client has not seen, however
      it got there, and any continuation that leaves it alone and completes a pull reading its table: the
      client ends with it, log included, if and only if its stamp lies in the window its table is read with. */
  lemma DeliveredIffInWindow(project: Uuid, rules: Rules, s: Sys, acts: seq<Action>, k: Key)
    requires Clocked(s) && Home(s.db, k) == Some(project) && Unread(project, s.client, k, s.db.rows[k].stamp)
    requires Valid(project, rules, s, acts) && LeftAlone(project, s, acts, k)
    requires NotAborted(s, acts, k.kind) && Served(s, acts, k.kind, false)
    ensures Delivered(Exec(s, acts), k) <==> s.db.rows[k].stamp >= Window(s.client, k.kind)
  {
    LeftAloneStays(project, s, acts, k);
    if s.db.rows[k].stamp < Window(s.client, k.kind) {
      NeverDelivered(project, rules, s, acts, k, s.db.rows[k].stamp);
    } else if s.client.phase.Pulling? && QueryOf(k.kind) < |s.client.phase.seen| {
      StalledComes(project, rules, s, acts, k);
    } else {
      AwaitedComes(project, rules, s, acts, k, false);
    }
  }

  /** A write that changes an entity of the project or brings it in, along with its station or by itself,
      gives it a version the client has not seen. */
  lemma ArrivalIsUnread(project: Uuid, s: Sys, act: Action, k: Key)
    requires Inv(project, s) && Enabled(project, Anything, s, act) && (act.Commit? || act.Office?)
    requires Home(Next(s, act).db, k) == Some(project) && !Kept(project, s.db, Next(s, act).db, k)
    ensures Clocked(Next(s, act)) && Unread(project, Next(s, act).client, k, Next(s, act).db.rows[k].stamp)
  {
    if act.Commit? {
      StepEffect(s.db, act.w);
    }
    var c := s.client;
    if c.phase.Pulling? && QueryOf(k.kind) < |c.phase.seen| {
      var q := c.phase.seen[QueryOf(k.kind)];
      assert Later(project, k.kind, q, s.db, Since(c.phase.watermark)) && Stays(project, k.kind, q, s.db);
    }
  }

  /** So the assumption about commits is exact: from any state of a run that kept to it, what the next write
      changes or brings into the project reaches the client if and only if it lies in the window. */
  lemma ArrivalIsDeliveredIffInWindow(project: Uuid, s: Sys, act: Action, later: seq<Action>, k: Key)
    requires Inv(project, s) && Enabled(project, Anything, s, act) && (act.Commit? || act.Office?)
    requires Home(Next(s, act).db, k) == Some(project) && !Kept(project, s.db, Next(s, act).db, k)
    requires Valid(project, Anything, Next(s, act), later) && LeftAlone(project, Next(s, act), later, k)
    requires NotAborted(Next(s, act), later, k.kind) && Served(Next(s, act), later, k.kind, false)
    ensures Delivered(Exec(Next(s, act), later), k)
            <==> Next(s, act).db.rows[k].stamp >= Window(s.client, k.kind)
  {
    ArrivalIsUnread(project, s, act, k);
    DeliveredIffInWindow(project, Anything, Next(s, act), later, k);
  }

  // ---------- runs that lose rows ----------

  /** A valid first station of a project, with the given stamp. */
  ghost predicate FreshStation(w: Write, project: Uuid, stamp: int) {
    && w.kind == Stations && w.fault == NoFault && Admitted(w)
    && w.project.uuid == Some(project) && w.rec.stamp == stamp
  }

  lemma FreshStationStored(db: Db, w: Write, project: Uuid, stamp: int)
    requires FreshStation(w, project, stamp) && project in db.projects && db.rows == map[]
    ensures Step(db, w) == Outcome(db.(rows := map[KeyOf(w) := RowOf(w)]), Synced)
  {
    StatusIsExact(db, w);
    StepEffect(db, w);
  }

  /** The overlap is exact: for every lag beyond it there is a run that commits a row with that lag just
      after a pull, and no continuation ever delivers the row unless it is rewritten. */
  lemma LateRowIsLost(project: Uuid, lag: int, w: Write, later: seq<Action>)
    requires PULL_OVERLAP_MS < lag <= INT64_MAX && FreshStation(w, project, 0)
    requires Valid(project, Anything, Exec(Init(lag, {project}), EMPTY_PULL + [Commit(w)]), later)
    ensures var acts := EMPTY_PULL + [Commit(w)];
            && Valid(project, Timely(lag, true), Init(lag, {project}), acts)
            && (var s := Exec(Init(lag, {project}), acts);
                KeyOf(w) in s.db.rows && s.now - s.db.rows[KeyOf(w)].stamp == lag)
            && NotDelivered(Exec(Init(lag, {project}), acts + later), KeyOf(w), 0)
  {
    var rules, s := Timely(lag, true), Init(lag, {project});
    EmptyPullRuns(project, rules, s);
    var s1 := Exec(s, EMPTY_PULL);
    FreshStationStored(s1.db, w, project, 0);
    OneStep(project, rules, s1, Commit(w));
    RunsConcat(project, rules, s, EMPTY_PULL, [Commit(w)]);
    RunsConcat(project, rules, s, EMPTY_PULL + [Commit(w)], later);
    SinceWindow(lag);
    NeverDelivered(project, Anything, Next(s1, Commit(w)), later, KeyOf(w), 0);
  }

  // ---------- other cursors ----------

  /** The client stores another timestamp as its cursor, as if it came from a pull. */
  function Adopt(s: Sys, cursor: int): Sys {
    s.(client := s.client.(cursor := cursor))
  }

  /** A run after which the client is between pulls, with cursor `w`, and `c` is no timestamp of the future. */
  ghost predicate Adoptable(project: Uuid, rules: Rules, now: int, projects: set<Uuid>, acts: seq<Action>, w: int,
                            c: int)
  {
    var s := Exec(Init(now, projects), acts);
    && 0 <= now <= INT64_MAX && Valid(project, rules, Init(now, projects), acts)
    && s.client.phase.Idle? && s.client.cursor == w && c <= s.now
  }

  /** Whenever a client replaces the cursor `w` of its last pull by `c`, nothing is ever lost: at any later
      time each entity of the project is held in its present version or selected by the next pull. */
  ghost predicate SafeCursor(project: Uuid, rules: Rules, w: int, c: int) {
    forall now: int, projects: set<Uuid>, acts: seq<Action>, later: seq<Action>, k: Key
      | Adoptable(project, rules, now, projects, acts, w, c)
        && Valid(project, rules, Adopt(Exec(Init(now, projects), acts), c), later)
        && Home(Exec(Adopt(Exec(Init(now, projects), acts), c), later).db, k) == Some(project) ::
      var s := Exec(Adopt(Exec(Init(now, projects), acts), c), later);
      Agrees(s.client.replica, s.db, k) || Selected(s.db, k, project, Since(s.client.cursor))
  }

  /** A pull at `w`, a row committed in time right after it, and a wait until `c`. */
  function PullCommitWait(w: int, c: int, st: Write): seq<Action>
    requires w <= c
  {
    EMPTY_PULL + [Commit(st)] + [Tick(c - w)]
  }

  lemma PullCommitWaitRuns(project: Uuid, rules: Rules, w: int, c: int, st: Write)
    requires 0 <= w <= c <= INT64_MAX && FreshStation(st, project, Since(w))
    requires rules in {InWindow, Timely(PULL_OVERLAP_MS, true)}
    ensures var s := Exec(Init(w, {project}), PullCommitWait(w, c, st));
            && Adoptable(project, rules, w, {project}, PullCommitWait(w, c, st), w, c)
            && s.now == c && s.db.rows == map[KeyOf(st) := RowOf(st)] && s.client.replica.rows == map[]
  {
    var s := Init(w, {project});
    EmptyPullRuns(project, rules, s);
    var s1 := Exec(s, EMPTY_PULL);
    FreshStationStored(s1.db, st, project, Since(w));
    SinceWindow(w);
    var s2 := Next(s1, Commit(st));
    assert Arrives(project, s1.client, s1.db, s2.db);
    OneStep(project, rules, s1, Commit(st));
    OneStep(project, rules, s2, Tick(c - w));
    RunsConcat(project, rules, s, EMPTY_PULL, [Commit(st)]);
    RunsConcat(project, rules, s, EMPTY_PULL + [Commit(st)], [Tick(c - w)]);
  }

  /** A client that goes on from a timestamp with a narrower window than its last pull's, such as the one of
      its push answer, loses a row somebody committed, in time, between the two. */
  lemma PushTimestampAsCursorLosesRows(project: Uuid, rules: Rules, w: int, c: int, st: Write, later: seq<Action>)
    requires 0 <= w <= c <= INT64_MAX && Since(w) < Since(c) && FreshStation(st, project, Since(w))
    requires rules in {InWindow, Timely(PULL_OVERLAP_MS, true)}
    requires Valid(project, Anything, Adopt(Exec(Init(w, {project}), PullCommitWait(w, c, st)), c), later)
    ensures Adoptable(project, rules, w, {project}, PullCommitWait(w, c, st), w, c)
    ensures var s := Adopt(Exec(Init(w, {project}), PullCommitWait(w, c, st)), c);
            && Home(s.db, KeyOf(st)) == Some(project)
            && NotDelivered(Exec(s, later), KeyOf(st), Since(w))
  {
    PullCommitWaitRuns(project, rules, w, c, st);
    var s := Adopt(Exec(Init(w, {project}), PullCommitWait(w, c, st)), c);
    NeverDelivered(project, Anything, s, later, KeyOf(st), Since(w));
  }

  lemma AdoptionKeepsInv(project: Uuid, s: Sys, c: int)
    requires Inv(project, s) && s.client.phase.Idle? && s.client.cursor <= c <= s.now
    requires Since(c) <= Since(s.client.cursor)
    ensures Inv(project, Adopt(s, c))
  {
  }

  /** Which cursors are as good as the last pull's: a later timestamp, like that of a push answer, is safe if
      and only if it is no later at all or still inside the overlap after the epoch. */
  lemma CursorIsSafeIff(project: Uuid, rules: Rules, w: int, c: int)
    requires 0 <= w <= c <= INT64_MAX && rules in {InWindow, Timely(PULL_OVERLAP_MS, true)}
    ensures SafeCursor(project, rules, w, c) <==> c == w || c <= PULL_OVERLAP_MS
  {
    SinceWindow(w);
    SinceWindow(c);
    if Since(c) <= Since(w) {
      forall now: int, projects: set<Uuid>, acts: seq<Action>, later: seq<Action>, k: Key
        | Adoptable(project, rules, now, projects, acts, w, c)
          && Valid(project, rules, Adopt(Exec(Init(now, projects), acts), c), later)
          && Home(Exec(Adopt(Exec(Init(now, projects), acts), c), later).db, k) == Some(project)
        ensures var s := Exec(Adopt(Exec(Init(now, projects), acts), c), later);
                Agrees(s.client.replica, s.db, k) || Selected(s.db, k, project, Since(s.client.cursor))
      {
        ExecKeepsInv(project, rules, Init(now, projects), acts);
        AdoptionKeepsInv(project, Exec(Init(now, projects), acts), c);
        ExecKeepsInv(project, rules, Adopt(Exec(Init(now, projects), acts), c), later);
      }
    } else {
      var id := Ref("p", Some(project));
      var rec := Record(Ref("s", Some(0)), id, "ST-1", Finite(0.0), Finite(0.0), "", Since(w), false, []);
      var st := Write(Stations, id, rec, NoFault);
      PushTimestampAsCursorLosesRows(project, rules, w, c, st, []);
      var acts, k := PullCommitWait(w, c, st), KeyOf(st);
      var s := Adopt(Exec(Init(w, {project}), acts), c);
      assert Adoptable(project, rules, w, {project}, acts, w, c) && Valid(project, rules, s, []) && Exec(s, []) == s;
      PullCommitWaitRuns(project, rules, w, c, st);
      assert !Agrees(s.client.replica, s.db, k) && !Selected(s.db, k, project, Since(s.client.cursor));
    }
  }

  // ---------- entities that change project ----------

  /** A measurement stamped 0 on the station of `st`. */
  ghost predicate FreshMeasurement(m: Write, st: Write) {
    && st.rec.id.uuid.Some?
    && m.kind == Measurements && m.fault == NoFault && Admitted(m)
    && m.rec.parent.uuid == st.rec.id.uuid && m.rec.stamp == 0
  }

  /** The same station, pushed again under another project with stamp `t`. */
  ghost predicate MovesTo(w: Write, st: Write, project: Uuid, t: int) {
    && w.kind == Stations && w.fault == NoFault && Admitted(w)
    && w.project.uuid == Some(project) && w.rec.id.uuid == st.rec.id.uuid && w.rec.stamp == t
  }

  lemma StationWithChildStored(db: Db, st: Write, m: Write, project: Uuid)
    requires FreshStation(st, project, 0) && FreshMeasurement(m, st) && project in db.projects && db.rows == map[]
    ensures var d1 := Step(db, st).db;
            && Step(db, st).status == Synced && Step(d1, m).status == Synced
            && Step(d1, m).db == db.(rows := map[KeyOf(st) := RowOf(st), KeyOf(m) := RowOf(m)])
  {
    FreshStationStored(db, st, project, 0);
    var d1 := Step(db, st).db;
    StatusIsExact(d1, m);
    StepEffect(d1, m);
  }

  lemma MoveStored(db: Db, st: Write, m: Write, w: Write, project: Uuid, t: int)
    requires Admitted(st) && st.kind == Stations && st.rec.stamp == 0 && FreshMeasurement(m, st)
    requires MovesTo(w, st, project, t) && 0 < t && project in db.projects
    requires db.rows == map[KeyOf(st) := RowOf(st), KeyOf(m) := RowOf(m)]
    ensures Written(Step(db, w).status)
    ensures Home(Step(db, w).db, KeyOf(m)) == Some(project)
    ensures KeyOf(m) in Step(db, w).db.rows && Step(db, w).db.rows[KeyOf(m)].stamp == 0
  {
    assert KeyOf(w) == KeyOf(st) && KeyOf(m) != KeyOf(w);
    StatusIsExact(db, w);
    StepEffect(db, w);
  }

  function MoveRun(st: Write, m: Write, w: Write): seq<Action> {
    MoveStart(st, m) + EMPTY_PULL + [Commit(w)]
  }

  function MoveStart(st: Write, m: Write): seq<Action> {
    [Commit(st)] + [Commit(m)] + [Tick(PULL_OVERLAP_MS + 1)]
  }

  lemma MoveStartRuns(project: Uuid, other: Uuid, st: Write, m: Write)
    requires project != other && FreshStation(st, other, 0) && FreshMeasurement(m, st)
    ensures var rules, s0 := Timely(PULL_OVERLAP_MS, false), Init(0, {project, other});
            && Valid(project, rules, s0, MoveStart(st, m))
            && Exec(s0, MoveStart(st, m))
               == s0.(now := PULL_OVERLAP_MS + 1,
                      db := s0.db.(rows := map[KeyOf(st) := RowOf(st), KeyOf(m) := RowOf(m)]))
  {
    var rules, s0, t := Timely(PULL_OVERLAP_MS, false), Init(0, {project, other}), PULL_OVERLAP_MS + 1;
    StationWithChildStored(s0.db, st, m, other);
    var s1 := Next(s0, Commit(st));
    var s2 := Next(s1, Commit(m));
    OneStep(project, rules, s0, Commit(st));
    OneStep(project, rules, s1, Commit(m));
    OneStep(project, rules, s2, Tick(t));
    RunsConcat(project, rules, s0, [Commit(st)], [Commit(m)]);
    RunsConcat(project, rules, s0, [Commit(st)] + [Commit(m)], [Tick(t)]);
  }

  /** A station re-pushed under another project brings its old children along below the window: a client of
      the new project, although every commit was timely, never receives them. */
  lemma MovedChildIsLost(project: Uuid, other: Uuid, st: Write, m: Write, w: Write, later: seq<Action>)
    requires project != other && FreshStation(st, other, 0) && FreshMeasurement(m, st)
    requires MovesTo(w, st, project, PULL_OVERLAP_MS + 1)
    requires var s := Exec(Init(0, {project, other}), MoveRun(st, m, w));
             Valid(project, Anything, s, later)
    ensures var rules, init := Timely(PULL_OVERLAP_MS, false), Init(0, {project, other});
            && Valid(project, rules, init, MoveRun(st, m, w))
            && Home(Exec(init, MoveRun(st, m, w)).db, KeyOf(m)) == Some(project)
            && NotDelivered(Exec(init, MoveRun(st, m, w) + later), KeyOf(m), 0)
  {
    var rules, s0, t := Timely(PULL_OVERLAP_MS, false), Init(0, {project, other}), PULL_OVERLAP_MS + 1;
    MoveStartRuns(project, other, st, m);
    var s3 := Exec(s0, MoveStart(st, m));
    EmptyPullRuns(project, rules, s3);
    RunsConcat(project, rules, s0, MoveStart(st, m), EMPTY_PULL);
    var s4 := Exec(s3, EMPTY_PULL);
    MoveStored(s4.db, st, m, w, project, t);
    OneStep(project, rules, s4, Commit(w));
    RunsConcat(project, rules, s0, MoveStart(st, m) + EMPTY_PULL, [Commit(w)]);
    RunsConcat(project, rules, s0, MoveRun(st, m, w), later);
    SinceWindow(t);
    NeverDelivered(project, Anything, Next(s4, Commit(w)), later, KeyOf(m), 0);
  }

  // ---------- a torn borehole ----------

  /** A borehole of the project with a one-interval log, and a newer edit that clears the log. */
  ghost predicate BoreholeEdits(v1: Write, v2: Write, project: Uuid) {
    && v1.kind == v2.kind == Boreholes && v1.fault == v2.fault == NoFault
    && Admitted(v1) && Admitted(v2) && KeyOf(v1) == KeyOf(v2)
    && v1.project.uuid == v2.project.uuid == Some(project)
    && v1.rec.stamp == 0 && v2.rec.stamp == 1
    && |v1.rec.intervals| == 1 && v2.rec.intervals == []
  }

  function Torn(v1: Write): Answers
    requires Admitted(v1)
  {
    Answers([], [], [], [], [Item(KeyOf(v1).id, RowOf(v1))], [], [])
  }

  /** The run up to the answer: one commit, a pull, and the other commit before its last two statements. */
  function TornStart(v1: Write, v2: Write): seq<Action> {
    [Commit(v1)] + [Begin] + Repeat(Query, 5) + [Commit(v2)] + Repeat(Query, 2)
  }

  lemma EditsStored(project: Uuid, v1: Write, v2: Write)
    requires BoreholeEdits(v1, v2, project)
    ensures var db := Db({project}, map[], map[]);
            var d1 := Step(db, v1).db;
            var d2 := Step(d1, v2).db;
            && Step(db, v1).status == Synced && Step(d1, v2).status == Overwrote
            && d1.rows == map[KeyOf(v1) := RowOf(v1)] && d2.rows == map[KeyOf(v2) := RowOf(v2)]
            && |LogOf(d1.intervals, KeyOf(v1).id)| == 1 && d2.intervals == map[]
            && d1.projects == d2.projects == {project}
  {
    var db := Db({project}, map[], map[]);
    var b, iv := KeyOf(v1).id, v1.rec.intervals[0];
    assert ValidInterval(iv);
    assert v1.rec.intervals[..0] == [];
    assert InsertLog(WithoutLog(db.intervals, b), b, v1.rec.intervals)
           == Some(map[iv.id.uuid.value := IntervalRowOf(b, iv)]);
    StatusIsExact(db, v1);
    StepEffect(db, v1);
    var d1 := Step(db, v1).db;
    assert WithoutLog(d1.intervals, b) == map[];
    StatusIsExact(d1, v2);
    StepEffect(d1, v2);
  }

  lemma TornStartRuns(project: Uuid, v1: Write, v2: Write)
    requires BoreholeEdits(v1, v2, project)
    ensures var rules, s0 := Timely(PULL_OVERLAP_MS, true), Init(1, {project});
            var d1 := Step(s0.db, v1).db;
            var d2 := Step(d1, v2).db;
            && Valid(project, rules, s0, TornStart(v1, v2))
            && Exec(s0, TornStart(v1, v2))
               == Sys(1, d2, Client(0, Replica(map[], map[]), Pulling(1, Repeat(d1, 5) + Repeat(d2, 2))))
  {
    var rules, s0 := Timely(PULL_OVERLAP_MS, true), Init(1, {project});
    EditsStored(project, v1, v2);
    var s1 := Next(s0, Commit(v1));
    var s2 := Next(s1, Begin);
    var s3 := s2.(client := s2.client.(phase := Pulling(1, Repeat(s1.db, 5))));
    var s4 := Next(s3, Commit(v2));
    var a1 := [Commit(v1)] + [Begin];
    var a2 := a1 + Repeat(Query, 5);
    var a3 := a2 + [Commit(v2)];
    OneStep(project, rules, s0, Commit(v1));
    OneStep(project, rules, s1, Begin);
    RunsConcat(project, rules, s0, [Commit(v1)], [Begin]);
    assert [] + Repeat(s1.db, 5) == Repeat(s1.db, 5);
    QueriesRun(project, rules, s2, 5);
    RunsConcat(project, rules, s0, a1, Repeat(Query, 5));
    OneStep(project, rules, s3, Commit(v2));
    RunsConcat(project, rules, s0, a2, [Commit(v2)]);
    QueriesRun(project, rules, s4, 2);
    RunsConcat(project, rules, s0, a3, Repeat(Query, 2));
  }

  lemma TornMerge(project: Uuid, v1: Write, v2: Write)
    requires BoreholeEdits(v1, v2, project)
    ensures var k, rep := KeyOf(v1), Merge(Replica(map[], map[]), Respond(1, Torn(v1)));
            && k in rep.rows && rep.rows[k] == RowOf(v1)
            && k.id in rep.logs && rep.logs[k.id] == map[]
  {
    var k := KeyOf(v1);
    MergeTakes(Replica(map[], map[]), Torn(v1), 1, Boreholes, Item(k.id, RowOf(v1)));
    var views := NestIntervals(Torn(v1).headers, []);
    TakeLogsTakes(map[], map[], views, 0);
    assert views[0].intervals == [] && LogMap([]) == map[];
  }

  /** The pull's two borehole statements are not one snapshot: an edit committed between them reaches the
      client as the old header with the new log. */
  lemma PullTearsABorehole(project: Uuid, v1: Write, v2: Write)
    requires BoreholeEdits(v1, v2, project)
    ensures var rules, init := Timely(PULL_OVERLAP_MS, true), Init(1, {project});
            var acts := TornStart(v1, v2) + [Finish(Torn(v1))];
            var k, rep := KeyOf(v1), Exec(init, acts).client.replica;
            && Valid(project, rules, init, acts)
            && k in rep.rows && rep.rows[k] == RowOf(v1)
            && k.id in rep.logs && rep.logs[k.id] == ListedLog(k.id, v2.rec.intervals)
            && ListedLog(k.id, v2.rec.intervals) != ListedLog(k.id, v1.rec.intervals)
  {
    var rules, s0 := Timely(PULL_OVERLAP_MS, true), Init(1, {project});
    TornStartRuns(project, v1, v2);
    var s := Exec(s0, TornStart(v1, v2));
    EditsStored(project, v1, v2);
    StepEffect(s0.db, v1);
    TornAnswers(project, Step(s0.db, v1).db, s.db, v1, v2);
    OneStep(project, rules, s, Finish(Torn(v1)));
    RunsConcat(project, rules, s0, TornStart(v1, v2), [Finish(Torn(v1))]);
    TornMerge(project, v1, v2);
  }

  lemma TornAnswers(project: Uuid, d1: Db, d2: Db, v1: Write, v2: Write)
    requires BoreholeEdits(v1, v2, project)
    requires d1.rows == map[KeyOf(v1) := RowOf(v1)] && d2.rows == map[KeyOf(v2) := RowOf(v2)] && d2.intervals == map[]
    ensures Answered(project, Since(0), Repeat(d1, 5) + Repeat(d2, 2), Torn(v1))
  {
    SinceWindow(0);
    var seen := Repeat(d1, 5) + Repeat(d2, 2);
    forall kind: Kind ensures IsSelect(seen[QueryOf(kind)], kind, project, 0, ItemsOf(Torn(v1), kind)) {
      assert kind == Boreholes ==> seen[QueryOf(kind)] == d1;
    }
  }
}
