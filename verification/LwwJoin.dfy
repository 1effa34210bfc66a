/** Last-write-wins over whole runs: who ends up stored, whatever the order and the rejections. */
module LwwJoin {
  import opened SyncTypes
  import opened Conflict
  import opened Lww
  import opened SyncPush

  /** Write `i` of the run was not rejected and addresses row `k`. */
  ghost predicate Counts(db: Db, ws: seq<Write>, k: Key, i: nat)
    requires i < |ws|
  {
    !Run(db, ws).statuses[i].Rejected? && Admitted(ws[i]) && KeyOf(ws[i]) == k
  }

  /** The first write among the non-rejected ones for `k` that carry the greatest stamp. */
  ghost predicate IsWinner(db: Db, ws: seq<Write>, k: Key, i: nat)
    requires i < |ws|
  {
    && Counts(db, ws, k, i)
    && forall j | 0 <= j < |ws| && Counts(db, ws, k, j) ::
         ws[j].rec.stamp <= ws[i].rec.stamp && (j < i ==> ws[j].rec.stamp < ws[i].rec.stamp)
  }

  /** The stored row and, for a borehole, its log are the ones this write carried. */
  ghost predicate Stores(db: Db, k: Key, w: Write)
    requires Admitted(w)
  {
    && k in db.rows && db.rows[k] == RowOf(w)
    && (k.kind == Boreholes ==>
          LogOf(db.intervals, k.id) == ListedLog(k.id, w.rec.intervals)
          && |LogOf(db.intervals, k.id)| == |w.rec.intervals|)
  }

  ghost predicate SameEntity(db: Db, db': Db, k: Key) {
    && (k in db.rows <==> k in db'.rows)
    && (k in db.rows ==> db.rows[k] == db'.rows[k])
    && (k.kind == Boreholes ==> LogOf(db.intervals, k.id) == LogOf(db'.intervals, k.id))
  }

  /** The position of the write whose entity is stored under `k`; -1 while no write has taken effect. */
  ghost function Holder(db: Db, ws: seq<Write>, k: Key): (h: int)
    ensures -1 <= h < |ws|
  {
    if ws == [] then -1
    else
      var n := |ws| - 1;
      if Written(Run(db, ws).statuses[n]) && Admitted(ws[n]) && KeyOf(ws[n]) == k then n
      else Holder(db, ws[..n], k)
  }

  /** What holding means: either the initial entity is still there and dominates, or a write's is. */
  ghost predicate Held(db: Db, ws: seq<Write>, k: Key, h: int)
    requires -1 <= h < |ws|
  {
    var db' := Run(db, ws).db;
    if h == -1 then
      && SameEntity(db, db', k)
      && forall j | 0 <= j < |ws| && Counts(db, ws, k, j) :: k in db.rows && ws[j].rec.stamp <= db.rows[k].stamp
    else
      && IsWinner(db, ws, k, h)
      && Stores(db', k, ws[h])
      && (k in db.rows ==> db.rows[k].stamp < ws[h].rec.stamp)
  }

  /** A last write that takes effect on `k` holds it. */
  lemma LastWriteHolds(db: Db, ws: seq<Write>, k: Key)
    requires ws != [] && Held(db, ws[..|ws| - 1], k, Holder(db, ws[..|ws| - 1], k))
    requires Written(Run(db, ws).statuses[|ws| - 1]) && Admitted(ws[|ws| - 1]) && KeyOf(ws[|ws| - 1]) == k
    ensures Held(db, ws, k, |ws| - 1)
  {
    var n := |ws| - 1;
    var d, w := Run(db, ws[..n]).db, ws[n];
    StepEffect(d, w);
    forall j | 0 <= j < n && Counts(db, ws, k, j) ensures ws[j].rec.stamp < w.rec.stamp {
      assert Counts(db, ws[..n], k, j);
    }
  }

  /** What counted before the last write still counts, and nothing else does. */
  lemma CountsBefore(db: Db, ws: seq<Write>, k: Key, j: nat)
    requires j < |ws| - 1
    ensures Counts(db, ws, k, j) <==> Counts(db, ws[..|ws| - 1], k, j)
  {
  }

  /** A last write that does not take effect on `k` leaves the entity alone, and if it counts it is stale. */
  lemma OtherWriteYields(db: Db, ws: seq<Write>, k: Key)
    requires ws != []
    requires !(Written(Run(db, ws).statuses[|ws| - 1]) && Admitted(ws[|ws| - 1]) && KeyOf(ws[|ws| - 1]) == k)
    ensures var d := Run(db, ws[..|ws| - 1]).db;
            && SameEntity(d, Run(db, ws).db, k)
            && (Counts(db, ws, k, |ws| - 1) ==> k in d.rows && d.rows[k].stamp >= ws[|ws| - 1].rec.stamp)
  {
    var d, w := Run(db, ws[..|ws| - 1]).db, ws[|ws| - 1];
    StepEffect(d, w);
    if Admitted(w) {
      StatusIsExact(d, w);
    }
  }

  /** Any other last write leaves the holder alone. */
  lemma LastWriteYields(db: Db, ws: seq<Write>, k: Key)
    requires ws != [] && Held(db, ws[..|ws| - 1], k, Holder(db, ws[..|ws| - 1], k))
    requires !(Written(Run(db, ws).statuses[|ws| - 1]) && Admitted(ws[|ws| - 1]) && KeyOf(ws[|ws| - 1]) == k)
    ensures Held(db, ws, k, Holder(db, ws[..|ws| - 1], k))
  {
    OtherWriteYields(db, ws, k);
    forall j | 0 <= j < |ws| - 1 ensures Counts(db, ws, k, j) <==> Counts(db, ws[..|ws| - 1], k, j) {
      CountsBefore(db, ws, k, j);
    }
  }

  lemma {:induction false} HolderHolds(db: Db, ws: seq<Write>, k: Key)
    ensures Held(db, ws, k, Holder(db, ws, k))
  {
    if ws != [] {
      var n := |ws| - 1;
      HolderHolds(db, ws[..n], k);
      if Written(Run(db, ws).statuses[n]) && Admitted(ws[n]) && KeyOf(ws[n]) == k {
        LastWriteHolds(db, ws, k);
      } else {
        LastWriteYields(db, ws, k);
      }
    }
  }

  /** The main law: the stored entity is the first of the non-rejected writes with the greatest stamp,
      provided the row initially present, if any, is older. */
  lemma LastWriteWins(db: Db, ws: seq<Write>, k: Key, i: nat)
    requires i < |ws| && IsWinner(db, ws, k, i)
    requires k in db.rows ==> db.rows[k].stamp < ws[i].rec.stamp
    ensures Stores(Run(db, ws).db, k, ws[i])
  {
    HolderHolds(db, ws, k);
    var h := Holder(db, ws, k);
    assert Held(db, ws, k, h) && Counts(db, ws, k, i);
    assert h != -1 && Counts(db, ws, k, h);
    assert h == i;
  }

  /** In every reachable state each stored entity, a borehole with its whole log, is the one some
      non-rejected write carried: no run leaves a header with another write's intervals. */
  lemma StoredIsCarried(projects: set<Uuid>, ws: seq<Write>, k: Key) returns (i: nat)
    requires k in Run(Db(projects, map[], map[]), ws).db.rows
    ensures i < |ws| && IsWinner(Db(projects, map[], map[]), ws, k, i)
    ensures Stores(Run(Db(projects, map[], map[]), ws).db, k, ws[i])
  {
    var empty := Db(projects, map[], map[]);
    HolderHolds(empty, ws, k);
    i := Holder(empty, ws, k);
  }

  // ---------- order independence ----------

  /** What a write wants stored, without its fault. */
  ghost function Payload(w: Write): (Kind, Ref, Record) {
    (w.kind, w.project, w.rec)
  }

  ghost function Payloads(ws: seq<Write>): set<(Kind, Ref, Record)> {
    set w | w in ws :: Payload(w)
  }

  ghost predicate AllAccepted(db: Db, ws: seq<Write>) {
    forall i | 0 <= i < |ws| :: !Run(db, ws).statuses[i].Rejected?
  }

  /** No write for the same row is newer. */
  ghost predicate Newest(ws: seq<Write>, a: Write)
    requires Admitted(a)
  {
    forall b | b in ws && Admitted(b) && KeyOf(b) == KeyOf(a) :: b.rec.stamp <= a.rec.stamp
  }

  /** Each row has one newest edit, however often it is sent; ties among older edits are harmless. */
  ghost predicate OneNewest(ws: seq<Write>) {
    forall a, b | a in ws && b in ws && Admitted(a) && Admitted(b) && KeyOf(a) == KeyOf(b)
                  && Newest(ws, a) && Newest(ws, b) :: Payload(a) == Payload(b)
  }

  lemma CountsElsewhere(db: Db, ws: seq<Write>, ws': seq<Write>, k: Key, i: nat) returns (j: nat)
    requires Payloads(ws) <= Payloads(ws') && AllAccepted(db, ws')
    requires i < |ws| && Counts(db, ws, k, i)
    ensures j < |ws'| && Counts(db, ws', k, j) && Payload(ws'[j]) == Payload(ws[i])
  {
    assert Payload(ws[i]) in Payloads(ws);
    var w :| w in ws' && Payload(w) == Payload(ws[i]);
    j :| 0 <= j < |ws'| && ws'[j] == w;
  }

  /** The first of the newest edits of a row in a list of writes. */
  ghost predicate FirstNewest(ws: seq<Write>, i: nat)
    requires i < |ws|
  {
    && Admitted(ws[i]) && Newest(ws, ws[i])
    && forall j | 0 <= j < i && Admitted(ws[j]) && KeyOf(ws[j]) == KeyOf(ws[i]) :: ws[j].rec.stamp < ws[i].rec.stamp
  }

  /** Where everything is accepted, the winner of a row is the first of its newest edits. */
  lemma WinnerIsFirstNewest(db: Db, ws: seq<Write>, i: nat)
    requires AllAccepted(db, ws) && i < |ws| && Admitted(ws[i])
    ensures IsWinner(db, ws, KeyOf(ws[i]), i) <==> FirstNewest(ws, i)
  {
    if IsWinner(db, ws, KeyOf(ws[i]), i) {
      forall b | b in ws && Admitted(b) && KeyOf(b) == KeyOf(ws[i]) ensures b.rec.stamp <= ws[i].rec.stamp {
        var j :| 0 <= j < |ws| && ws[j] == b;
        assert Counts(db, ws, KeyOf(ws[i]), j);
      }
      forall j | 0 <= j < i && Admitted(ws[j]) && KeyOf(ws[j]) == KeyOf(ws[i])
        ensures ws[j].rec.stamp < ws[i].rec.stamp
      {
        assert Counts(db, ws, KeyOf(ws[i]), j);
      }
    }
  }

  /** The two writes store the same row and, for a borehole, the same log. */
  ghost predicate SameEffect(a: Write, b: Write)
    requires Admitted(a) && Admitted(b)
  {
    && KeyOf(a) == KeyOf(b) && RowOf(a) == RowOf(b)
    && (a.kind == Boreholes ==>
          ListedLog(KeyOf(a).id, a.rec.intervals) == ListedLog(KeyOf(b).id, b.rec.intervals))
  }

  /** For each row that the edits renew, the first of its newest edits stores the same in both lists. */
  ghost predicate LeadersAgree(db: Db, ws: seq<Write>, ws': seq<Write>) {
    forall i, j | 0 <= i < |ws| && 0 <= j < |ws'| && FirstNewest(ws, i) && FirstNewest(ws', j)
                  && KeyOf(ws[i]) == KeyOf(ws'[j]) && !Guarded(db.rows, KeyOf(ws[i]), RowOf(ws[i])) ::
      SameEffect(ws[i], ws'[j])
  }

  lemma SameEntityStored(db: Db, ws: seq<Write>, ws': seq<Write>, k: Key)
    requires Payloads(ws) == Payloads(ws') && LeadersAgree(db, ws, ws')
    requires AllAccepted(db, ws) && AllAccepted(db, ws')
    ensures SameEntity(Run(db, ws).db, Run(db, ws').db, k)
  {
    HolderHolds(db, ws, k);
    HolderHolds(db, ws', k);
    var h, h' := Holder(db, ws, k), Holder(db, ws', k);
    if h >= 0 {
      var j := CountsElsewhere(db, ws, ws', k, h);
      assert h' >= 0;
      WinnerIsFirstNewest(db, ws, h);
      WinnerIsFirstNewest(db, ws', h');
      assert SameEffect(ws[h], ws'[h']);
    } else if h' >= 0 {
      var i := CountsElsewhere(db, ws', ws, k, h');
    }
  }

  lemma SameEntitiesSameDb(d: Db, d': Db)
    requires d.projects == d'.projects && forall k: Key :: SameEntity(d, d', k)
    ensures d == d'
  {
    assert d.rows.Keys == d'.rows.Keys by {
      assert forall k :: k in d.rows ==> SameEntity(d, d', k);
      assert forall k :: k in d'.rows ==> SameEntity(d, d', k);
    }
    assert forall k | k in d.rows :: SameEntity(d, d', k);
    assert d.rows == d'.rows;
    forall b: Uuid ensures LogOf(d.intervals, b) == LogOf(d'.intervals, b) {
      assert SameEntity(d, d', Key(Boreholes, b));
    }
    EqualLogsEqualTables(d.intervals, d'.intervals);
  }

  /** The leader of a row that it renews is what the row ends up as. */
  lemma LeaderIsStored(db: Db, ws: seq<Write>, i: nat)
    requires AllAccepted(db, ws) && i < |ws| && FirstNewest(ws, i)
    requires !Guarded(db.rows, KeyOf(ws[i]), RowOf(ws[i]))
    ensures Stores(Run(db, ws).db, KeyOf(ws[i]), ws[i])
  {
    WinnerIsFirstNewest(db, ws, i);
    LastWriteWins(db, ws, KeyOf(ws[i]), i);
  }

  /** When order matters: two rejection-free runs over the same edits, however permuted, interleaved or
      repeated, end in the same database if and only if their first newest edits agree row by row. */
  lemma SameEndIffLeadersAgree(db: Db, ws: seq<Write>, ws': seq<Write>)
    requires Payloads(ws) == Payloads(ws') && AllAccepted(db, ws) && AllAccepted(db, ws')
    ensures Run(db, ws).db == Run(db, ws').db <==> LeadersAgree(db, ws, ws')
  {
    if LeadersAgree(db, ws, ws') {
      forall k: Key ensures SameEntity(Run(db, ws).db, Run(db, ws').db, k) {
        SameEntityStored(db, ws, ws', k);
      }
      RunGrows(db, ws);
      RunGrows(db, ws');
      SameEntitiesSameDb(Run(db, ws).db, Run(db, ws').db);
    }
    if Run(db, ws).db == Run(db, ws').db {
      forall i, j | 0 <= i < |ws| && 0 <= j < |ws'| && FirstNewest(ws, i) && FirstNewest(ws', j)
                    && KeyOf(ws[i]) == KeyOf(ws'[j]) && !Guarded(db.rows, KeyOf(ws[i]), RowOf(ws[i]))
        ensures SameEffect(ws[i], ws'[j])
      {
        LeadersTie(db, ws, ws', i, j);
        LeaderIsStored(db, ws, i);
        LeaderIsStored(db, ws', j);
      }
    }
  }

  /** The leaders of a row carry the same stamp in both lists. */
  lemma LeadersTie(db: Db, ws: seq<Write>, ws': seq<Write>, i: nat, j: nat)
    requires Payloads(ws) == Payloads(ws') && AllAccepted(db, ws) && AllAccepted(db, ws')
    requires i < |ws| && j < |ws'| && FirstNewest(ws, i) && FirstNewest(ws', j) && KeyOf(ws[i]) == KeyOf(ws'[j])
    ensures ws[i].rec.stamp == ws'[j].rec.stamp
    ensures exists b | b in ws :: Payload(b) == Payload(ws'[j]) && Newest(ws, b)
  {
    var k := KeyOf(ws[i]);
    var j' := CountsElsewhere(db, ws, ws', k, i);
    var i' := CountsElsewhere(db, ws', ws, k, j);
    assert ws'[j'] in ws' && ws[i'] in ws;
    assert Payload(ws[i']) == Payload(ws'[j]) && Newest(ws, ws[i']);
  }

  /** So the join is order-independent and idempotent wherever no row has two newest edits. */
  lemma JoinIgnoresOrder(db: Db, ws: seq<Write>, ws': seq<Write>)
    requires Payloads(ws) == Payloads(ws') && OneNewest(ws)
    requires AllAccepted(db, ws) && AllAccepted(db, ws')
    ensures Run(db, ws).db == Run(db, ws').db
  {
    forall i, j | 0 <= i < |ws| && 0 <= j < |ws'| && FirstNewest(ws, i) && FirstNewest(ws', j)
                  && KeyOf(ws[i]) == KeyOf(ws'[j]) && !Guarded(db.rows, KeyOf(ws[i]), RowOf(ws[i]))
      ensures SameEffect(ws[i], ws'[j])
    {
      LeadersTie(db, ws, ws', i, j);
      var b :| b in ws && Payload(b) == Payload(ws'[j]) && Newest(ws, b);
      assert ws[i] in ws && Payload(ws[i]) == Payload(b);
    }
    SameEndIffLeadersAgree(db, ws, ws');
  }

  /** Ties keep the first: once a write was not rejected, an equally old or older one for its row that is not
      rejected either, at any later point of any run, is stale and changes nothing. */
  lemma TiesKeepTheFirst(db: Db, ws: seq<Write>, k: Key, i: nat, j: nat)
    requires i < j < |ws| && Counts(db, ws, k, i) && Counts(db, ws, k, j) && ws[j].rec.stamp <= ws[i].rec.stamp
    ensures Run(db, ws).statuses[j] == Stale && At(db, ws, j + 1) == At(db, ws, j)
  {
    AcceptedStays(db, ws, i, j);
    RunAt(db, ws, j);
    StatusIsExact(At(db, ws, j), ws[j]);
    StepEffect(At(db, ws, j), ws[j]);
  }

  /** So the condition is needed: with one stamp on two different newest edits, order shows. */
  lemma OrderShowsInTies(projects: set<Uuid>, a: Write, b: Write)
    requires Admitted(a) && Admitted(b) && a.kind == b.kind == Stations && a.rec.id == b.rec.id
    requires a.project == b.project && a.project.uuid.value in projects
    requires a.fault == b.fault == NoFault && a.rec.stamp == b.rec.stamp && RowOf(a) != RowOf(b)
    ensures var empty := Db(projects, map[], map[]);
            AllAccepted(empty, [a, b]) && AllAccepted(empty, [b, a])
            && Run(empty, [a, b]).db != Run(empty, [b, a]).db
  {
    var empty := Db(projects, map[], map[]);
    FirstStays(empty, a, b);
    FirstStays(empty, b, a);
  }

  lemma FirstStays(empty: Db, a: Write, b: Write)
    requires empty.rows == map[] && empty.intervals == map[]
    requires Admitted(a) && Admitted(b) && a.kind == b.kind == Stations && a.rec.id == b.rec.id
    requires a.project == b.project && a.project.uuid.value in empty.projects
    requires a.fault == b.fault == NoFault && a.rec.stamp == b.rec.stamp
    ensures Run(empty, [a, b]).db == empty.(rows := map[KeyOf(a) := RowOf(a)])
    ensures AllAccepted(empty, [a, b])
  {
    assert [a, b][..1] == [a] && [a][..0] == [];
    assert Run(empty, []) == Trace(empty, []);
    StatusIsExact(empty, a);
    StepEffect(empty, a);
    var d := Step(empty, a).db;
    assert Run(empty, [a]) == Trace(d, [Synced]);
    StatusIsExact(d, b);
    StepEffect(d, b);
  }

  /** Per row, the stored stamp never falls over any stretch of any run; so once a tombstone is stored only
      a strictly newer write can replace it. */
  lemma NoResurrection(db: Db, ws: seq<Write>, i: nat, j: nat, k: Key)
    requires i <= j <= |ws| && k in At(db, ws, i).rows && At(db, ws, i).rows[k].deleted
    ensures k in At(db, ws, j).rows && At(db, ws, i).rows[k].stamp <= At(db, ws, j).rows[k].stamp
    ensures !At(db, ws, j).rows[k].deleted ==> At(db, ws, i).rows[k].stamp < At(db, ws, j).rows[k].stamp
    decreases j - i
  {
    if i < j {
      RunAt(db, ws, i);
      var d, w := At(db, ws, i), ws[i];
      StepEffect(d, w);
      GrowsBetween(db, ws, i + 1, j);
      var k' := At(db, ws, i + 1).rows[k];
      if k'.deleted {
        NoResurrection(db, ws, i + 1, j, k);
      }
    }
  }

  // ---------- retries ----------

  /** A write that was not rejected leaves its row at least as new as itself, for ever after. */
  lemma AcceptedStays(db: Db, ws: seq<Write>, i: nat, j: nat)
    requires i < j <= |ws| && !Run(db, ws).statuses[i].Rejected?
    ensures Admitted(ws[i]) && Guarded(At(db, ws, j).rows, KeyOf(ws[i]), RowOf(ws[i]))
  {
    RunAt(db, ws, i);
    var d := At(db, ws, i);
    StepEffect(d, ws[i]);
    StatusIsExact(d, ws[i]);
    GrowsBetween(db, ws, i + 1, j);
  }

  /** Sending an accepted edit again, at any later point of any run, changes nothing and reports STALE. */
  lemma RetryIsStale(db: Db, ws: seq<Write>, i: nat, j: nat)
    requires i < j < |ws| && !Run(db, ws).statuses[i].Rejected?
    requires Payload(ws[j]) == Payload(ws[i]) && !FailsEarly(ws[j])
    ensures Run(db, ws).statuses[j] == Stale && At(db, ws, j + 1) == At(db, ws, j)
  {
    AcceptedStays(db, ws, i, j);
    RunAt(db, ws, j);
    StatusIsExact(At(db, ws, j), ws[j]);
    StepEffect(At(db, ws, j), ws[j]);
  }

  /** A run of writes that are all guarded leaves the database alone. */
  lemma {:induction false} AllGuarded(db: Db, ws: seq<Write>)
    requires forall w | w in ws :: Admitted(w) && !FailsEarly(w) && Guarded(db.rows, KeyOf(w), RowOf(w))
    ensures Run(db, ws).db == db && forall s | s in Run(db, ws).statuses :: s == Stale
  {
    if ws != [] {
      var w := ws[|ws| - 1];
      AllGuarded(db, ws[..|ws| - 1]);
      StatusIsExact(db, w);
      StepEffect(db, w);
    }
  }

  lemma AcceptedRunStays(db: Db, ws: seq<Write>, others: seq<Write>, w: Write)
    requires AllAccepted(db, ws) && w in ws
    ensures Admitted(w) && Guarded(Run(Run(db, ws).db, others).db.rows, KeyOf(w), RowOf(w))
  {
    var i :| 0 <= i < |ws| && ws[i] == w;
    RunConcat(db, ws, others);
    var all := ws + others;
    assert all[..|all|] == all;
    assert Run(db, all).statuses[i] == Run(db, ws).statuses[i];
    AcceptedStays(db, all, i, |all|);
  }

  /** A successful push repeated after any other pushes is a no-op with STALE for every entity. */
  lemma RePushIsNoOp(db: Db, b: Batch, faults: Faults, others: seq<Write>)
    requires AllAccepted(db, Flatten(b, faults))
    ensures var later := Run(Run(db, Flatten(b, faults)).db, others).db;
            var again := Run(later, Flatten(b, (k, i) => NoFault));
            again.db == later && forall s | s in again.statuses :: s == Stale
  {
    var ws, ws' := Flatten(b, faults), Flatten(b, (k, i) => NoFault);
    var later := Run(Run(db, ws).db, others).db;
    forall w | w in ws'
      ensures Admitted(w) && !FailsEarly(w) && Guarded(later.rows, KeyOf(w), RowOf(w))
    {
      var w' := SameEditIn(b, faults, w);
      AcceptedRunStays(db, ws, others, w');
    }
    AllGuarded(later, ws');
  }

  /** The fault-free batch asks for the same edits. */
  lemma SameEditIn(b: Batch, faults: Faults, w: Write) returns (w': Write)
    requires w in Flatten(b, (k, i) => NoFault)
    ensures w' in Flatten(b, faults) && w.fault == NoFault && w'.(fault := NoFault) == w
  {
    var ws := Flatten(b, (k, i) => NoFault);
    var i :| 0 <= i < |ws| && ws[i] == w;
    w' := Flatten(b, faults)[i];
  }

  // ---------- rejections ----------

  /** The writes of a run that were not rejected. */
  ghost function Kept(ws: seq<Write>, statuses: seq<Status>): seq<Write>
    requires |ws| == |statuses|
  {
    if ws == [] then []
    else
      var n := |ws| - 1;
      Kept(ws[..n], statuses[..n]) + if statuses[n].Rejected? then [] else [ws[n]]
  }

  ghost function Verdicts(statuses: seq<Status>): seq<Status> {
    if statuses == [] then []
    else
      var n := |statuses| - 1;
      Verdicts(statuses[..n]) + if statuses[n].Rejected? then [] else [statuses[n]]
  }

  /** Leaving the rejected entities out gives the same database and the same verdicts for the others. */
  lemma {:induction false} RejectionsDoNotInterfere(db: Db, ws: seq<Write>)
    ensures Run(db, Kept(ws, Run(db, ws).statuses)).db == Run(db, ws).db
    ensures Run(db, Kept(ws, Run(db, ws).statuses)).statuses == Verdicts(Run(db, ws).statuses)
  {
    if ws != [] {
      var n := |ws| - 1;
      var init, w := ws[..n], ws[n];
      var t, t0 := Run(db, ws), Run(db, init);
      RejectionsDoNotInterfere(db, init);
      assert t.statuses[..n] == t0.statuses;
      StepEffect(t0.db, w);
      var kept0 := Kept(init, t0.statuses);
      if !t.statuses[n].Rejected? {
        assert Kept(ws, t.statuses) == kept0 + [w];
        assert (kept0 + [w])[..|kept0|] == kept0;
      } else {
        assert Kept(ws, t.statuses) == kept0;
      }
    }
  }

  // ---------- parents before children ----------

  /** Once a station write was not rejected, no later child naming that station lacks its parent. */
  lemma ParentStays(db: Db, ws: seq<Write>, i: nat, j: nat)
    requires i < j < |ws| && ws[i].kind == Stations && !Run(db, ws).statuses[i].Rejected?
    requires ws[j].kind.IsChild() && ws[j].rec.parent.uuid == ws[i].rec.id.uuid
    ensures Run(db, ws).statuses[j] != Rejected(NoParent)
  {
    AcceptedStays(db, ws, i, j);
    RunAt(db, ws, j);
    var d := At(db, ws, j);
    StepEffect(d, ws[j]);
    if Admitted(ws[j]) {
      StatusIsExact(d, ws[j]);
    }
  }

  /** Within one push: if no station of the batch is rejected, no child naming one of them is refused for a
      missing parent. */
  lemma BatchBringsItsParents(db: Db, b: Batch, faults: Faults, s: nat, c: nat)
    requires s < |b.stations| <= c < |Flatten(b, faults)|
    requires var t := Run(db, Flatten(b, faults));
             forall i | 0 <= i < |b.stations| :: !t.statuses[i].Rejected?
    requires var w := Flatten(b, faults)[c];
             w.kind.IsChild() && w.rec.parent.uuid == b.stations[s].id.uuid
    ensures Run(db, Flatten(b, faults)).statuses[c] != Rejected(NoParent)
  {
    ParentStays(db, Flatten(b, faults), s, c);
  }
}
