/** A pull can always be completed: whatever its statements have read, there is an answer. */
module PullProgress {
  import opened SyncTypes
  import opened PullView
  import opened PullRun
  import opened PullBound

  // ---------- sorting a finite set ----------

  ghost predicate TotalPreorder<T(!new)>(le: (T, T) -> bool) {
    && (forall a, b :: le(a, b) || le(b, a))
    && forall a, b, c | le(a, b) && le(b, c) :: le(a, c)
  }

  lemma {:induction false} Last<T(!new)>(s: set<T>, le: (T, T) -> bool) returns (last: T)
    requires s != {} && TotalPreorder(le)
    ensures last in s && forall x | x in s :: le(x, last)
    decreases s
  {
    last :| last in s;
    if s != {last} {
      var m := Last(s - {last}, le);
      assert forall x | x in s :: x == last || x in s - {last};
      if le(last, m) {
        last := m;
      }
    }
  }

  /** Every finite set can be listed in order, each element once. */
  lemma {:induction false} Arrange<T(!new)>(s: set<T>, le: (T, T) -> bool) returns (out: seq<T>)
    requires TotalPreorder(le)
    ensures forall x: T :: x in out <==> x in s
    ensures forall i, j | 0 <= i < j < |out| :: out[i] != out[j] && le(out[i], out[j])
    decreases s
  {
    out := [];
    if s != {} {
      var last := Last(s, le);
      var init := Arrange(s - {last}, le);
      out := init + [last];
      assert forall i | 0 <= i < |init| :: init[i] in init;
    }
  }

  // ---------- answers ----------

  lemma SelectExists(db: Db, kind: Kind, project: Uuid, since: int) returns (out: seq<Item>)
    ensures IsSelect(db, kind, project, since, out)
  {
    var keys := set k | k in db.rows && k.kind == kind && Selected(db, k, project, since);
    var items := set k | k in keys :: Item(k.id, db.rows[k]);
    out := Arrange(items, (a: Item, b: Item) => a.row.stamp <= b.row.stamp);
    forall it: Item
      ensures it in out <==> Selected(db, Key(kind, it.id), project, since) && db.rows[Key(kind, it.id)] == it.row
    {
      assert Key(kind, it.id) in keys <==> Selected(db, Key(kind, it.id), project, since);
    }
    forall i, j | 0 <= i < j < |out| ensures out[i].id != out[j].id {
      assert out[i] in out && out[j] in out;
    }
  }

  lemma DepthsAreOrdered()
    ensures TotalPreorder((a: IntervalItem, b: IntervalItem) => a.row.lo.SortsUpTo(b.row.lo))
  {
  }

  lemma IntervalSelectExists(db: Db, project: Uuid, since: int) returns (out: seq<IntervalItem>)
    ensures IsIntervalSelect(db, project, since, out)
  {
    var items := set u | u in db.intervals && Selected(db, Key(Boreholes, db.intervals[u].borehole), project, since) ::
      IntervalItem(u, db.intervals[u]);
    DepthsAreOrdered();
    out := Arrange(items, (a: IntervalItem, b: IntervalItem) => a.row.lo.SortsUpTo(b.row.lo));
    forall i, j | 0 <= i < j < |out| ensures out[i].id != out[j].id {
      assert out[i] in out && out[j] in out;
    }
  }

  /** Whatever seven databases the statements of a pull have read, they can be answered. */
  lemma AnswersExist(project: Uuid, since: int, seen: seq<Db>) returns (a: Answers)
    requires |seen| == QUERIES
    ensures Answered(project, since, seen, a)
  {
    var stations := SelectExists(seen[QueryOf(Stations)], Stations, project, since);
    var measurements := SelectExists(seen[QueryOf(Measurements)], Measurements, project, since);
    var samples := SelectExists(seen[QueryOf(Samples)], Samples, project, since);
    var vegetation := SelectExists(seen[QueryOf(Vegetation)], Vegetation, project, since);
    var headers := SelectExists(seen[QueryOf(Boreholes)], Boreholes, project, since);
    var concessions := SelectExists(seen[QueryOf(Concessions)], Concessions, project, since);
    var intervals := IntervalSelectExists(seen[INTERVAL_QUERY], project, since);
    a := Answers(stations, measurements, samples, vegetation, headers, if headers == [] then [] else intervals,
                 concessions);
    TablesAnswered(project, since, seen, a);
  }

  lemma TablesAnswered(project: Uuid, since: int, seen: seq<Db>, a: Answers)
    requires |seen| == QUERIES
    requires IsSelect(seen[QueryOf(Stations)], Stations, project, since, a.stations)
    requires IsSelect(seen[QueryOf(Measurements)], Measurements, project, since, a.measurements)
    requires IsSelect(seen[QueryOf(Samples)], Samples, project, since, a.samples)
    requires IsSelect(seen[QueryOf(Vegetation)], Vegetation, project, since, a.vegetation)
    requires IsSelect(seen[QueryOf(Boreholes)], Boreholes, project, since, a.headers)
    requires IsSelect(seen[QueryOf(Concessions)], Concessions, project, since, a.concessions)
    ensures forall kind: Kind :: IsSelect(seen[QueryOf(kind)], kind, project, since, ItemsOf(a, kind))
  {
    forall kind: Kind ensures IsSelect(seen[QueryOf(kind)], kind, project, since, ItemsOf(a, kind)) {
      match kind
      case Stations =>
      case Measurements =>
      case Samples =>
      case Vegetation =>
      case Boreholes =>
      case Concessions =>
    }
  }

  // ---------- whole pulls ----------

  lemma QuietPullInv(project: Uuid, s: Sys)
    requires Inv(project, s)
    ensures PullInv(project, s.client.replica, s.client.cursor, s.db, Repeat(s.db, QUERIES), s.now)
  {
    assert forall q | q in Repeat(s.db, QUERIES) :: q == s.db;
    forall kind: Kind {
      LaterSelf(project, kind, s.db, Since(s.now));
    }
  }

  /** From every moment between two pulls of a run that kept to the rules, one pull makes the client equal to
      the project, whatever happened before. */
  lemma OnePullCatchesUp(project: Uuid, rules: Rules, s: Sys) returns (a: Answers)
    requires Inv(project, s) && s.client.phase.Idle?
    ensures Valid(project, rules, s, OnePull(a))
    ensures var s' := Exec(s, OnePull(a));
            && s'.db == s.db && s'.client.phase.Idle? && s'.client.cursor == s.now
            && EqualsProject(project, s'.client.replica, s'.db)
  {
    var c, seen := s.client, Repeat(s.db, QUERIES);
    a := AnswersExist(project, Since(c.cursor), seen);
    OnePullRuns(project, rules, s, a);
    QuietPullInv(project, s);
    MergeSettles(project, c.replica, c.cursor, s.db, seen, s.now, a);
    SettledOnOneDb(project, Merge(c.replica, Respond(s.now, a)), c.cursor, seen, s.db);
  }
}
