/** What one pushed entity does to the database: the last-write-wins upsert as a function on values. */
module Lww {
  import opened Wrappers
  import opened SyncTypes
  import opened Conflict
  import opened Validation

  datatype Outcome = Outcome(db: Db, status: Status)

  /** What the INSERT .. ON CONFLICT DO UPDATE .. WHERE .. RETURNING statement reports. */
  datatype Statement = Statement(rows: map<Key, Row>, applied: bool, wasInsert: bool, error: Option<SqlError>)

  /** The request as a whole is gated on a well-formed project id, the entity on its own checks. */
  predicate Admitted(w: Write) {
    RequireUuid(w.project) && ValidRecord(w.kind, w.project, w.rec)
  }

  function KeyOf(w: Write): Key
    requires Admitted(w)
  {
    Key(w.kind, w.rec.id.uuid.value)
  }

  function RowOf(w: Write): Row
    requires Admitted(w)
  {
    var r := w.rec;
    Row(r.parent.uuid.value, r.code, r.lat, r.lon, r.body, r.stamp, r.deleted)
  }

  /** Another row of the same table already claims this natural key. */
  predicate Collides(rows: map<Key, Row>, k: Key, row: Row) {
    && k.kind.HasNaturalKey()
    && exists k' | k' in rows ::
         k' != k && k'.kind == k.kind && rows[k'].parent == row.parent && rows[k'].code == row.code
  }

  predicate HasParent(projects: set<Uuid>, rows: map<Key, Row>, k: Key, row: Row) {
    if k.kind.IsChild() then Key(Stations, row.parent) in rows else row.parent in projects
  }

  /** The stored row is newer or equal, so the guard skips the write. */
  predicate Guarded(rows: map<Key, Row>, k: Key, row: Row) {
    k in rows && rows[k].stamp >= row.stamp
  }

  /** One guarded upsert. The guard is decided on the primary key before any other constraint is looked at;
      unique indexes are maintained before foreign keys are checked. */
  function Execute(projects: set<Uuid>, rows: map<Key, Row>, k: Key, row: Row, broken: bool): Statement {
    if broken then Statement(rows, false, false, Some(OtherSqlError))
    else if Guarded(rows, k, row) then Statement(rows, false, false, None)
    else if Collides(rows, k, row) then Statement(rows, false, false, Some(UniqueViolation))
    else if !HasParent(projects, rows, k, row) then Statement(rows, false, false, Some(ForeignKeyViolation))
    else Statement(rows[k := row], true, k !in rows, None)
  }

  function FinishUpshot(applied: bool, wasInsert: bool, error: Option<SqlError>): Status {
    if error.Some? then ClassifyError(error.value) else ResolveUpshot(applied, wasInsert)
  }

  /** The interval table after DELETE .. WHERE borehole_id = b. */
  function WithoutLog(t: map<Uuid, IntervalRow>, b: Uuid): map<Uuid, IntervalRow> {
    map u | u in t && t[u].borehole != b :: t[u]
  }

  function IntervalRowOf(b: Uuid, iv: Interval): IntervalRow {
    IntervalRow(b, iv.lo, iv.hi, iv.body)
  }

  /** The inserts of a log, in order; None when one of them hits the primary key of the interval table. */
  function InsertLog(t: map<Uuid, IntervalRow>, b: Uuid, log: seq<Interval>): Option<map<Uuid, IntervalRow>> {
    if log == [] then Some(t)
    else
      var before := InsertLog(t, b, log[..|log| - 1]);
      var iv := log[|log| - 1];
      if before.None? || iv.id.uuid.None? || iv.id.uuid.value in before.value then None
      else Some(before.value[iv.id.uuid.value := IntervalRowOf(b, iv)])
  }

  // ---------- one entity ----------

  /** A plain entity: one statement. */
  function UpsertPlain(db: Db, k: Key, row: Row, fault: Fault): Outcome {
    var st := Execute(db.projects, db.rows, k, row, fault in {AtBegin, AtUpsert});
    Outcome(db.(rows := st.rows), FinishUpshot(st.applied, st.wasInsert, st.error))
  }

  /** A borehole: header and log in one transaction. */
  function UpsertBorehole(db: Db, b: Uuid, row: Row, log: seq<Interval>, fault: Fault): Outcome {
    var st := Execute(db.projects, db.rows, Key(Boreholes, b), row, fault in {AtBegin, AtUpsert});
    if st.error.Some? then Outcome(db, ClassifyError(st.error.value))
    else if !st.applied then Outcome(db, Stale)
    else if fault == AtDelete || (log != [] && fault == AtInsert) then Outcome(db, ClassifyError(OtherSqlError))
    else
      var t := InsertLog(WithoutLog(db.intervals, b), b, log);
      if t.None? then Outcome(db, ClassifyError(UniqueViolation))
      else if fault == AtCommit then Outcome(db, ClassifyError(NotFromDatabase))
      else Outcome(db.(rows := st.rows, intervals := t.value), ResolveUpshot(true, st.wasInsert))
  }

  /** One entity of a push, from validation to verdict. */
  function Step(db: Db, w: Write): Outcome {
    if !Admitted(w) then Outcome(db, Rejected(Invalid))
    else if w.kind == Boreholes then UpsertBorehole(db, w.rec.id.uuid.value, RowOf(w), w.rec.intervals, w.fault)
    else UpsertPlain(db, KeyOf(w), RowOf(w), w.fault)
  }

  /** A run of writes, by whichever requests they belong to, in the order the database commits them. */
  datatype Trace = Trace(db: Db, statuses: seq<Status>)

  function Run(db: Db, ws: seq<Write>): (t: Trace)
    ensures |t.statuses| == |ws|
  {
    if ws == [] then Trace(db, [])
    else
      var before := Run(db, ws[..|ws| - 1]);
      var o := Step(before.db, ws[|ws| - 1]);
      Trace(o.db, before.statuses + [o.status])
  }

  /** The database reached after the first `i` writes. */
  function At(db: Db, ws: seq<Write>, i: nat): Db
    requires i <= |ws|
  {
    Run(db, ws[..i]).db
  }

  // ---------- what one write means ----------

  /** A failure before the guard is evaluated. */
  predicate FailsEarly(w: Write) {
    w.fault in {AtBegin, AtUpsert}
  }

  /** A failure of the DELETE, or of the inserts if there are any. */
  predicate FailsInLog(w: Write) {
    w.kind == Boreholes && (w.fault == AtDelete || (w.fault == AtInsert && w.rec.intervals != []))
  }

  predicate FailsAtCommit(w: Write) {
    w.kind == Boreholes && w.fault == AtCommit
  }

  /** An interval of the list has the id of an earlier one. */
  ghost predicate RepeatsEarlier(log: seq<Interval>, i: nat)
    requires i < |log|
  {
    exists j | 0 <= j < i :: log[j].id.uuid == log[i].id.uuid
  }

  predicate Written(s: Status) {
    s == Synced || s == Overwrote
  }

  /** The rows a log stands for, by interval id. */
  function ListedLog(b: Uuid, log: seq<Interval>): (m: map<Uuid, IntervalRow>)
    ensures forall u | u in m :: m[u].borehole == b
  {
    if log == [] then map[]
    else
      var before := ListedLog(b, log[..|log| - 1]);
      var iv := log[|log| - 1];
      if iv.id.uuid.None? then before
      else before[iv.id.uuid.value := IntervalRowOf(b, iv)]
  }

  /** Inserting a log yields exactly the listed intervals, all distinct, next to the untouched rest. */
  ghost predicate AddsLog(t: map<Uuid, IntervalRow>, b: Uuid, log: seq<Interval>, t': map<Uuid, IntervalRow>) {
    var listed := ListedLog(b, log);
    && t.Keys !! listed.Keys
    && |listed| == |log|
    && t' == t + listed
  }

  lemma UpdateLargerHalf<K, V>(t: map<K, V>, m: map<K, V>, u: K, r: V)
    requires t.Keys !! m.Keys && u !in t && u !in m
    ensures (t + m)[u := r] == t + m[u := r]
    ensures t.Keys !! m[u := r].Keys
  {
  }

  lemma UpdateGrows<K, V>(m: map<K, V>, u: K, r: V)
    requires u !in m
    ensures |m[u := r]| == |m| + 1
  {
    assert m[u := r].Keys == m.Keys + {u};
  }

  lemma {:induction false} InsertLogAddsTheList(t: map<Uuid, IntervalRow>, b: Uuid, log: seq<Interval>)
    requires InsertLog(t, b, log).Some?
    ensures AddsLog(t, b, log, InsertLog(t, b, log).value)
  {
    if log != [] {
      var init, iv := log[..|log| - 1], log[|log| - 1];
      InsertLogAddsTheList(t, b, init);
      UpdateLargerHalf(t, ListedLog(b, init), iv.id.uuid.value, IntervalRowOf(b, iv));
      UpdateGrows(ListedLog(b, init), iv.id.uuid.value, IntervalRowOf(b, iv));
    }
  }

  /** After an accepted borehole, its log is the list of that very write and every other log is as before. */
  lemma ReplacedLog(t: map<Uuid, IntervalRow>, b: Uuid, log: seq<Interval>)
    requires InsertLog(WithoutLog(t, b), b, log).Some?
    ensures var t' := InsertLog(WithoutLog(t, b), b, log).value;
            && LogOf(t', b) == ListedLog(b, log)
            && |ListedLog(b, log)| == |log|
            && forall c: Uuid | c != b :: LogOf(t', c) == LogOf(t, c)
  {
    var rest, listed := WithoutLog(t, b), ListedLog(b, log);
    InsertLogAddsTheList(rest, b, log);
    var t' := InsertLog(rest, b, log).value;
    assert forall u | u in t' :: t'[u] == if u in listed then listed[u] else rest[u];
    assert LogOf(t', b) == listed;
    forall c: Uuid | c != b ensures LogOf(t', c) == LogOf(t, c) {
      assert forall u :: u in LogOf(t, c) ==> u in rest;
    }
  }

  /** The effect of a write that is neither rejected nor stale, and the absence of any effect otherwise. */
  lemma StepEffect(db: Db, w: Write)
    ensures var o := Step(db, w);
            && (!Written(o.status) ==> o.db == db)
            && o.db.projects == db.projects
            && (o.status != Rejected(Invalid) ==> Admitted(w))
            && (Written(o.status) ==>
                  && o.db.rows == db.rows[KeyOf(w) := RowOf(w)]
                  && !Guarded(db.rows, KeyOf(w), RowOf(w))
                  && !Collides(db.rows, KeyOf(w), RowOf(w))
                  && HasParent(db.projects, db.rows, KeyOf(w), RowOf(w))
                  && (w.kind != Boreholes ==> o.db.intervals == db.intervals)
                  && (w.kind == Boreholes ==>
                        && LogOf(o.db.intervals, KeyOf(w).id) == ListedLog(KeyOf(w).id, w.rec.intervals)
                        && |ListedLog(KeyOf(w).id, w.rec.intervals)| == |w.rec.intervals|)
                  && forall c: Uuid | !(w.kind == Boreholes && c == KeyOf(w).id) ::
                       LogOf(o.db.intervals, c) == LogOf(db.intervals, c))
  {
    var o := Step(db, w);
    if Written(o.status) && w.kind == Boreholes {
      ReplacedLog(db.intervals, w.rec.id.uuid.value, w.rec.intervals);
    }
  }

  /** SYNCED, OVERWROTE and STALE classify absent, older and newer-or-equal stored rows; a fault-free write
      is refused for a natural-key collision, a missing parent or a clash of interval ids, and nothing else;
      each refusal carries its own reason, and of several the first in the order of the statements. */
  lemma StatusIsExact(db: Db, w: Write)
    requires Admitted(w)
    ensures var k, row, s := KeyOf(w), RowOf(w), Step(db, w).status;
            && (s == Stale <==> !FailsEarly(w) && k in db.rows && db.rows[k].stamp >= row.stamp)
            && (s == Synced ==> k !in db.rows)
            && (s == Overwrote ==> k in db.rows && db.rows[k].stamp < row.stamp)
            && (w.fault == NoFault && !Guarded(db.rows, k, row) ==>
                  (Written(s) <==>
                     && !Collides(db.rows, k, row)
                     && HasParent(db.projects, db.rows, k, row)
                     && (w.kind == Boreholes ==>
                           InsertLog(WithoutLog(db.intervals, k.id), k.id, w.rec.intervals).Some?)))
            && (FailsEarly(w) ==> s == Rejected(Storage))
            && (!FailsEarly(w) && !Guarded(db.rows, k, row) ==>
                  && (Collides(db.rows, k, row) ==> s == Rejected(Duplicate))
                  && (s == Rejected(NoParent) <==>
                        !Collides(db.rows, k, row) && !HasParent(db.projects, db.rows, k, row)))
            && (!FailsEarly(w) && !Guarded(db.rows, k, row) && !Collides(db.rows, k, row)
                && HasParent(db.projects, db.rows, k, row) ==>
                  var rest := WithoutLog(db.intervals, k.id);
                  var clash := w.kind == Boreholes && InsertLog(rest, k.id, w.rec.intervals).None?;
                  && (s == Rejected(Storage) <==> FailsInLog(w) || (FailsAtCommit(w) && !clash))
                  && (s == Rejected(Duplicate) <==> !FailsInLog(w) && clash)
                  && (Written(s) <==> !FailsInLog(w) && !FailsAtCommit(w) && !clash))
  {
  }

  // ---------- acceptance in the client's own terms ----------

  ghost predicate BadId(r: Ref) {
    r.text == "" || r.uuid.None?
  }

  /** Both depths are numbers and the lower end lies above the upper one. */
  ghost predicate UpsideDown(iv: Interval) {
    && !iv.lo.NaN? && !iv.hi.NaN? && iv.lo != iv.hi
    && (iv.lo.PosInf? || iv.hi.NegInf? || (iv.lo.Finite? && iv.hi.Finite? && iv.hi.v < iv.lo.v))
  }

  ghost predicate OutsideTheBox(lat: Float, lon: Float) {
    || !lat.Finite? || lat.v < -90.0 || lat.v > 90.0
    || !lon.Finite? || lon.v < -180.0 || lon.v > 180.0
  }

  /** What a device can get wrong about an entity, kind by kind. */
  ghost predicate Defective(w: Write) {
    var r := w.rec;
    || BadId(r.id)
    || match w.kind
       case Stations => r.parent != w.project || r.code == "" || OutsideTheBox(r.lat, r.lon)
       case Measurements => BadId(r.parent) || r.code == ""
       case Samples => BadId(r.parent) || r.code == ""
       case Vegetation => BadId(r.parent)
       case Boreholes =>
         || r.parent != w.project || r.code == "" || OutsideTheBox(r.lat, r.lon)
         || exists i | 0 <= i < |r.intervals| :: BadId(r.intervals[i].id) || UpsideDown(r.intervals[i])
       case Concessions => true
  }

  lemma ValidIntervalMeaning(iv: Interval)
    ensures ValidInterval(iv) <==> !BadId(iv.id) && !UpsideDown(iv)
  {
  }

  /** An entity is refused as invalid exactly for one of these defects, whatever is stored. */
  lemma InvalidExactlyWhen(db: Db, w: Write)
    requires !BadId(w.project)
    ensures Step(db, w).status == Rejected(Invalid) <==> Defective(w)
    ensures Admitted(w) <==> !Defective(w)
  {
    ValidLatLngIsTheBox(w.rec.lat, w.rec.lon);
    forall iv: Interval {
      ValidIntervalMeaning(iv);
    }
    if Admitted(w) {
      StatusIsExact(db, w);
    }
  }

  /** Another row of the table has the natural key: the code within the project of a station or borehole, the
      tag within the station of a sample. */
  ghost predicate Taken(db: Db, w: Write, parent: Uuid, id: Uuid) {
    && w.kind in {Stations, Samples, Boreholes}
    && exists k | k in db.rows ::
         && k.kind == w.kind && k.id != id
         && db.rows[k].parent == parent && db.rows[k].code == w.rec.code
  }

  /** The station, or for stations and boreholes the project, is not there. */
  ghost predicate Orphaned(db: Db, w: Write, parent: Uuid) {
    if w.kind in {Stations, Boreholes} then parent !in db.projects else Key(Stations, parent) !in db.rows
  }

  /** An interval of the list has an id twice, or one that an interval of another borehole has. */
  ghost predicate IntervalIdTaken(db: Db, w: Write, id: Uuid) {
    w.kind == Boreholes
    && exists i | 0 <= i < |w.rec.intervals| ::
         var u := w.rec.intervals[i].id.uuid;
         || (u.Some? && u.value in db.intervals && db.intervals[u.value].borehole != id)
         || RepeatsEarlier(w.rec.intervals, i)
  }

  lemma ClashMeaning(db: Db, w: Write, id: Uuid)
    requires !BadId(w.project) && !Defective(w) && w.kind == Boreholes
    ensures InsertLog(WithoutLog(db.intervals, id), id, w.rec.intervals).None? <==> IntervalIdTaken(db, w, id)
  {
    var log := w.rec.intervals;
    forall iv | iv in log ensures iv.id.uuid.Some? {
      var i :| 0 <= i < |log| && log[i] == iv;
      assert !BadId(log[i].id);
    }
    InsertLogClashes(WithoutLog(db.intervals, id), id, log);
    assert forall i | 0 <= i < |log| :: log[i] in log;
  }

  /** The verdict on an entity without defects, when no statement breaks off, in terms of the stored tables. */
  lemma VerdictExactlyWhen(db: Db, w: Write)
    requires !BadId(w.project) && !Defective(w) && w.fault == NoFault
    requires w.rec.id.uuid.Some? && w.rec.parent.uuid.Some?
    ensures var id, parent, s := w.rec.id.uuid.value, w.rec.parent.uuid.value, Step(db, w).status;
            var k := Key(w.kind, id);
            var newer := k in db.rows ==> db.rows[k].stamp < w.rec.stamp;
            && (s == Stale <==> !newer)
            && (s == Rejected(Duplicate) <==>
                  newer && (Taken(db, w, parent, id) || (!Orphaned(db, w, parent) && IntervalIdTaken(db, w, id))))
            && (s == Rejected(NoParent) <==> newer && !Taken(db, w, parent, id) && Orphaned(db, w, parent))
            && (s == Synced || s == Overwrote <==>
                  && newer && !Taken(db, w, parent, id) && !Orphaned(db, w, parent)
                  && !IntervalIdTaken(db, w, id))
            && (s == Synced ==> k !in db.rows)
            && (s == Overwrote ==> k in db.rows)
  {
    var id, parent := w.rec.id.uuid.value, w.rec.parent.uuid.value;
    InvalidExactlyWhen(db, w);
    StatusIsExact(db, w);
    TakenMeaning(db, w);
    if w.kind == Boreholes {
      ClashMeaning(db, w, id);
    }
  }

  lemma TakenMeaning(db: Db, w: Write)
    requires Admitted(w)
    ensures Collides(db.rows, KeyOf(w), RowOf(w)) <==> Taken(db, w, w.rec.parent.uuid.value, w.rec.id.uuid.value)
    ensures HasParent(db.projects, db.rows, KeyOf(w), RowOf(w)) <==> !Orphaned(db, w, w.rec.parent.uuid.value)
  {
    if k :| k in db.rows && k != KeyOf(w) && k.kind == w.kind && db.rows[k].parent == RowOf(w).parent
            && db.rows[k].code == RowOf(w).code {
      assert k.id != w.rec.id.uuid.value;
    }
  }

  /** What an accepted entity leaves behind: its own row column by column, its own log, and everything else as
      it was. */
  lemma WhatIsWritten(db: Db, w: Write)
    requires Written(Step(db, w).status)
    requires w.rec.id.uuid.Some? && w.rec.parent.uuid.Some?
    ensures var r, db', k := w.rec, Step(db, w).db, Key(w.kind, w.rec.id.uuid.value);
            && db'.projects == db.projects
            && k in db'.rows
            && db'.rows[k] == Row(r.parent.uuid.value, r.code, r.lat, r.lon, r.body, r.stamp, r.deleted)
            && (forall k' | k' != k :: (k' in db'.rows <==> k' in db.rows)
                                       && (k' in db.rows ==> db'.rows[k'] == db.rows[k']))
            && forall b: Uuid | !(w.kind == Boreholes && b == k.id) ::
                 LogOf(db'.intervals, b) == LogOf(db.intervals, b)
  {
    StepEffect(db, w);
  }

  /** The interval inserts hit the primary key exactly when an id repeats in the list or is already taken. */
  lemma {:induction false} InsertLogClashes(t: map<Uuid, IntervalRow>, b: Uuid, log: seq<Interval>)
    requires forall iv | iv in log :: iv.id.uuid.Some?
    ensures InsertLog(t, b, log).None? <==>
              exists i | 0 <= i < |log| :: log[i].id.uuid.value in t || RepeatsEarlier(log, i)
    ensures InsertLog(t, b, log).Some? ==>
              forall u :: u in InsertLog(t, b, log).value <==>
                            u in t || exists i | 0 <= i < |log| :: log[i].id.uuid == Some(u)
  {
    if log != [] {
      var n := |log| - 1;
      var init := log[..n];
      assert forall i | 0 <= i < n :: init[i] == log[i] && (RepeatsEarlier(init, i) <==> RepeatsEarlier(log, i));
      InsertLogClashes(t, b, init);
      if InsertLog(t, b, init).None? {
        var i :| 0 <= i < n && (init[i].id.uuid.value in t || RepeatsEarlier(init, i));
        assert log[i].id.uuid.value in t || RepeatsEarlier(log, i);
      }
    }
  }

  // ---------- runs ----------

  lemma {:induction false} RunAt(db: Db, ws: seq<Write>, i: nat)
    requires i < |ws|
    ensures Run(db, ws).statuses[i] == Step(At(db, ws, i), ws[i]).status
    ensures At(db, ws, i + 1) == Step(At(db, ws, i), ws[i]).db
    decreases |ws|
  {
    assert ws[..i + 1][..i] == ws[..i];
    assert ws[..|ws|] == ws;
    if i < |ws| - 1 {
      var before := ws[..|ws| - 1];
      RunAt(db, before, i);
      assert before[..i] == ws[..i] && before[..i + 1] == ws[..i + 1];
    }
  }

  lemma {:induction false} RunConcat(db: Db, a: seq<Write>, b: seq<Write>)
    ensures Run(db, a + b).db == Run(Run(db, a).db, b).db
    ensures Run(db, a + b).statuses == Run(db, a).statuses + Run(Run(db, a).db, b).statuses
    decreases |b|
  {
    if b == [] {
      assert a + b == a;
    } else {
      var b' := b[..|b| - 1];
      assert (a + b)[..|a + b| - 1] == a + b';
      RunConcat(db, a, b');
    }
  }

  /** Rows are never dropped and stamps never fall. */
  ghost predicate Grows(db: Db, db': Db) {
    && db.projects == db'.projects
    && forall k | k in db.rows :: k in db'.rows && db.rows[k].stamp <= db'.rows[k].stamp
  }

  lemma {:induction false} RunGrows(db: Db, ws: seq<Write>)
    ensures Grows(db, Run(db, ws).db)
  {
    if ws != [] {
      var before := ws[..|ws| - 1];
      RunGrows(db, before);
      StepEffect(Run(db, before).db, ws[|ws| - 1]);
    }
  }

  lemma GrowsBetween(db: Db, ws: seq<Write>, i: nat, j: nat)
    requires i <= j <= |ws|
    ensures Grows(At(db, ws, i), At(db, ws, j))
  {
    assert ws[..j] == ws[..i] + ws[i..j];
    RunConcat(db, ws[..i], ws[i..j]);
    RunGrows(At(db, ws, i), ws[i..j]);
  }
}
