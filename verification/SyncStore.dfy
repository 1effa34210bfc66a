/** The SQL layer of the sync engine (store.go): every statement of a push, on mutable tables. */
module SyncStore {
  import opened Wrappers
  import opened SyncTypes
  import opened Conflict
  import opened Lww

  class Store {
    var projects: set<Uuid>
    var rows: map<Key, Row>
    var intervals: map<Uuid, IntervalRow>

    function Contents(): Db
      reads this
    {
      Db(projects, rows, intervals)
    }

    constructor (projects: set<Uuid>)
      ensures Contents() == Db(projects, map[], map[])
    {
      this.projects := projects;
      rows := map[];
      intervals := map[];
    }

    /** One guarded upsert outside any transaction. */
    method ExecLww(k: Key, row: Row, broken: bool)
      returns (applied: bool, wasInsert: bool, error: Option<SqlError>)
      modifies this`rows
      ensures Statement(rows, applied, wasInsert, error) == Execute(projects, old(rows), k, row, broken)
    {
      applied, wasInsert, error := false, false, None;
      if broken {
        error := Some(OtherSqlError);
        return;
      }
      if k in rows && !(rows[k].stamp < row.stamp) {
        return; // no row returned: stale
      }
      if Collides(rows, k, row) {
        error := Some(UniqueViolation);
        return;
      }
      if !HasParent(projects, rows, k, row) {
        error := Some(ForeignKeyViolation);
        return;
      }
      applied, wasInsert := true, k !in rows;
      rows := rows[k := row];
    }

    /** Stations, measurements, samples and vegetation: one statement, one verdict. */
    method UpsertPlain(k: Key, row: Row, fault: Fault) returns (s: Status)
      modifies this
      ensures Outcome(Contents(), s) == Lww.UpsertPlain(old(Contents()), k, row, fault)
    {
      var applied, wasInsert, error := ExecLww(k, row, fault in {AtBegin, AtUpsert});
      s := FinishUpshot(applied, wasInsert, error);
    }

    /** A borehole and its log in one transaction: the tables change at the commit or not at all. */
    method UpsertBorehole(b: Uuid, row: Row, log: seq<Interval>, fault: Fault) returns (s: Status)
      modifies this
      ensures Outcome(Contents(), s) == Lww.UpsertBorehole(old(Contents()), b, row, log, fault)
    {
      if fault == AtBegin {
        return ClassifyError(OtherSqlError);
      }
      var k := Key(Boreholes, b);
      // the transaction's own view of the two tables
      var header := Execute(projects, rows, k, row, fault == AtUpsert);
      if header.error.Some? {
        return ClassifyError(header.error.value);
      }
      if !header.applied {
        return Stale;
      }
      if fault == AtDelete {
        return ClassifyError(OtherSqlError);
      }
      var txIntervals := WithoutLog(intervals, b);
      if log != [] {
        if fault == AtInsert {
          return ClassifyError(OtherSqlError);
        }
        for i := 0 to |log|
          invariant InsertLog(WithoutLog(intervals, b), b, log[..i]) == Some(txIntervals)
        {
          assert log[..i + 1][..i] == log[..i];
          if log[i].id.uuid.None? || log[i].id.uuid.value in txIntervals {
            InsertLogFails(WithoutLog(intervals, b), b, log, i + 1);
            return ClassifyError(UniqueViolation);
          }
          txIntervals := txIntervals[log[i].id.uuid.value := IntervalRowOf(b, log[i])];
        }
        assert log[..|log|] == log;
      }
      if fault == AtCommit {
        return ClassifyError(NotFromDatabase);
      }
      rows, intervals := header.rows, txIntervals;
      s := ResolveUpshot(true, header.wasInsert);
    }
  }

  /** Once an insert of the batch fails, the whole batch does. */
  lemma {:induction false} InsertLogFails(t: map<Uuid, IntervalRow>, b: Uuid, log: seq<Interval>, i: nat)
    requires i <= |log| && InsertLog(t, b, log[..i]).None?
    ensures InsertLog(t, b, log).None?
    decreases |log| - i
  {
    if i < |log| {
      assert log[..i + 1][..i] == log[..i];
      InsertLogFails(t, b, log, i + 1);
    } else {
      assert log[..i] == log;
    }
  }
}
