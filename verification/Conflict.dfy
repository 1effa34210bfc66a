/** Verdicts: how the outcome of one guarded upsert becomes the status a device sees (conflict.go). */
module Conflict {
  datatype SqlError = UniqueViolation | ForeignKeyViolation | BadText | OtherSqlError | NotFromDatabase

  datatype Why = Invalid | Duplicate | NoParent | Malformed | Storage

  datatype Status = Synced | Overwrote | Stale | Rejected(why: Why)

  function ResolveUpshot(applied: bool, wasInsert: bool): Status {
    if !applied then Stale
    else if wasInsert then Synced
    else Overwrote
  }

  function ClassifyError(err: SqlError): Status {
    match err
    case UniqueViolation => Rejected(Duplicate)
    case ForeignKeyViolation => Rejected(NoParent)
    case BadText => Rejected(Malformed)
    case OtherSqlError => Rejected(Storage)
    case NotFromDatabase => Rejected(Storage)
  }

  /** Whatever a statement reports, the entity is rejected, and each kind of error has its own reason. */
  lemma EveryErrorRejects(err: SqlError)
    ensures ClassifyError(err).Rejected?
    ensures var why := ClassifyError(err).why;
            && (why == Duplicate <==> err.UniqueViolation?) && (why == NoParent <==> err.ForeignKeyViolation?)
            && (why == Malformed <==> err.BadText?) && (why == Storage <==> err.OtherSqlError? || err.NotFromDatabase?)
  {
  }
}
