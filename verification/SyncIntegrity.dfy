/** What every run of pushes keeps true of the tables. */
module SyncIntegrity {
  import opened SyncTypes
  import opened Validation
  import opened Lww

  /** Every child names a stored station, every station and borehole a known project. */
  ghost predicate ParentsStored(db: Db) {
    forall k | k in db.rows :: HasParent(db.projects, db.rows, k, db.rows[k])
  }

  /** Every stored row passed its validation. */
  ghost predicate RowsValid(db: Db) {
    forall k | k in db.rows ::
      && (k.kind in {Stations, Boreholes} ==> ValidLatLng(db.rows[k].lat, db.rows[k].lon))
      && (k.kind in {Stations, Boreholes, Measurements, Samples} ==> db.rows[k].code != "")
  }

  ghost predicate SameNaturalKey(db: Db, k: Key, k': Key)
    requires k in db.rows && k' in db.rows
  {
    && k.kind == k'.kind && k.kind.HasNaturalKey()
    && db.rows[k].parent == db.rows[k'].parent && db.rows[k].code == db.rows[k'].code
  }

  /** No two stations or boreholes share (project, code), no two samples (station, tag). */
  ghost predicate NaturalKeysUnique(db: Db) {
    forall k, k' | k in db.rows && k' in db.rows && SameNaturalKey(db, k, k') :: k == k'
  }

  /** Every interval belongs to a stored borehole and is not upside down. */
  ghost predicate IntervalsOwned(db: Db) {
    forall u | u in db.intervals ::
      && Key(Boreholes, db.intervals[u].borehole) in db.rows
      && !db.intervals[u].hi.Less(db.intervals[u].lo)
  }

  ghost predicate Integrity(db: Db) {
    ParentsStored(db) && RowsValid(db) && NaturalKeysUnique(db) && IntervalsOwned(db)
  }

  lemma {:induction false} ListedIntervalsValid(b: Uuid, log: seq<Interval>)
    requires forall iv | iv in log :: ValidInterval(iv)
    ensures forall u | u in ListedLog(b, log) :: !ListedLog(b, log)[u].hi.Less(ListedLog(b, log)[u].lo)
  {
    if log != [] {
      var init := log[..|log| - 1];
      assert forall iv | iv in init :: iv in log;
      ListedIntervalsValid(b, init);
      assert ValidInterval(log[|log| - 1]);
    }
  }

  lemma IntervalsStayOwned(db: Db, w: Write)
    requires Integrity(db) && Written(Step(db, w).status)
    ensures IntervalsOwned(Step(db, w).db)
  {
    var db' := Step(db, w).db;
    StepEffect(db, w);
    if w.kind == Boreholes {
      ListedIntervalsValid(KeyOf(w).id, w.rec.intervals);
      forall u | u in db'.intervals
        ensures Key(Boreholes, db'.intervals[u].borehole) in db'.rows
        ensures !db'.intervals[u].hi.Less(db'.intervals[u].lo)
      {
        var b := db'.intervals[u].borehole;
        assert u in LogOf(db'.intervals, b);
        if b != KeyOf(w).id {
          assert u in LogOf(db.intervals, b);
        }
      }
    }
  }

  lemma StepKeepsIntegrity(db: Db, w: Write)
    requires Integrity(db)
    ensures Integrity(Step(db, w).db)
  {
    var o := Step(db, w);
    StepEffect(db, w);
    if Written(o.status) {
      var k, row := KeyOf(w), RowOf(w);
      IntervalsStayOwned(db, w);
      forall k1, k2 | k1 in o.db.rows && k2 in o.db.rows && SameNaturalKey(o.db, k1, k2) ensures k1 == k2 {
        if k1 != k && k2 != k {
          assert SameNaturalKey(db, k1, k2);
        }
      }
    }
  }

  /** Over all runs of pushes from an empty database, rejections and faults included. */
  lemma {:induction false} RunKeepsIntegrity(projects: set<Uuid>, ws: seq<Write>)
    ensures Integrity(Run(Db(projects, map[], map[]), ws).db)
  {
    if ws != [] {
      var init := ws[..|ws| - 1];
      RunKeepsIntegrity(projects, init);
      StepKeepsIntegrity(Run(Db(projects, map[], map[]), init).db, ws[|ws| - 1]);
    }
  }
}
