/** From a device through the server to another device: an accepted entity is what a pull hands out. */
module RoundTrip {
  import opened Wrappers
  import opened SyncTypes
  import opened Lww
  import opened PullView

  /** The row shows what the record says, column by column. */
  ghost predicate ReadsBack(row: Row, r: Record) {
    && r.parent.uuid == Some(row.parent)
    && row.code == r.code && row.lat == r.lat && row.lon == r.lon && row.body == r.body
    && row.stamp == r.stamp && row.deleted == r.deleted
  }

  /** One of the pulled intervals shows what the pushed interval says. */
  ghost predicate IntervalReadsBack(it: IntervalItem, borehole: Uuid, iv: Interval) {
    && iv.id.uuid == Some(it.id) && it.row.borehole == borehole
    && it.row.lo == iv.lo && it.row.hi == iv.hi && it.row.body == iv.body
  }

  /** Every interval of an inserted log is in the table under its own id. */
  lemma {:induction false} InsertedUnderItsId(t: map<Uuid, IntervalRow>, b: Uuid, log: seq<Interval>, i: nat)
    requires InsertLog(t, b, log).Some? && i < |log|
    ensures log[i].id.uuid.Some? && log[i].id.uuid.value in InsertLog(t, b, log).value
    ensures InsertLog(t, b, log).value[log[i].id.uuid.value] == IntervalRow(b, log[i].lo, log[i].hi, log[i].body)
    decreases |log|
  {
    if i < |log| - 1 {
      InsertedUnderItsId(t, b, log[..|log| - 1], i);
    }
  }

  /** Whatever select contains an accepted entity shows it as it was pushed; a station or borehole under the
      project of its batch. */
  lemma PushThenPull(db: Db, w: Write, project: Uuid, since: int, out: seq<Item>)
    requires Written(Step(db, w).status)
    requires IsSelect(Step(db, w).db, w.kind, project, since, out)
    ensures var id := KeyOf(w).id;
            && (forall it | it in out && it.id == id :: ReadsBack(it.row, w.rec))
            && (!w.kind.IsChild() ==>
                  ((exists it | it in out :: it.id == id) <==> w.project.uuid == Some(project) && w.rec.stamp >= since))
  {
    StepEffect(db, w);
    var db', k := Step(db, w).db, KeyOf(w);
    forall it | it in out && it.id == k.id ensures ReadsBack(it.row, w.rec) {
      assert db'.rows[Key(w.kind, it.id)] == it.row;
    }
    if !w.kind.IsChild() && w.project.uuid == Some(project) && w.rec.stamp >= since {
      assert Selected(db', k, project, since);
      assert Item(k.id, db'.rows[k]) in out;
    }
    if it :| it in out && it.id == k.id {
      assert Selected(db', Key(w.kind, it.id), project, since);
    }
  }

  /** The log nested under an accepted borehole is the pushed one: as many intervals, each as it was sent. */
  lemma PushThenPullLog(db: Db, w: Write, project: Uuid, since: int, headers: seq<Item>, ivs: seq<IntervalItem>, h: nat)
    requires w.kind == Boreholes && Written(Step(db, w).status)
    requires IsSelect(Step(db, w).db, Boreholes, project, since, headers)
    requires IsIntervalSelect(Step(db, w).db, project, since, ivs)
    requires h < |headers| && headers[h].id == KeyOf(w).id
    ensures var log := NestIntervals(headers, ivs)[h].intervals;
            && (forall i | 0 <= i < |w.rec.intervals| ::
                  exists it | it in log :: IntervalReadsBack(it, KeyOf(w).id, w.rec.intervals[i]))
            && |LogOf(Step(db, w).db.intervals, KeyOf(w).id)| == |w.rec.intervals|
            && forall it | it in log :: it.id in LogOf(Step(db, w).db.intervals, KeyOf(w).id)
  {
    StepEffect(db, w);
    var db', b, log := Step(db, w).db, KeyOf(w).id, NestIntervals(headers, ivs)[h].intervals;
    assert headers[h] in headers;
    assert Selected(db', Key(Boreholes, b), project, since);
    AttachedLogIsTheLog(db', project, since, headers, ivs, h);
    forall i | 0 <= i < |w.rec.intervals|
      ensures exists it | it in log :: IntervalReadsBack(it, b, w.rec.intervals[i])
    {
      var iv := w.rec.intervals[i];
      InsertedUnderItsId(WithoutLog(db.intervals, b), b, w.rec.intervals, i);
      var it := IntervalItem(iv.id.uuid.value, IntervalRow(b, iv.lo, iv.hi, iv.body));
      assert it in log && IntervalReadsBack(it, b, iv);
    }
  }
}
