/**
 One delivery: the eligibility check on the loaded row, the outcome the provider reports,
 and the transaction that persists it. `PersistTransaction` is the transaction as a function of
 the tables; `PersistDeliveryResult` runs it statement by statement, in place.
*/
module Delivery {
  import opened Prelude
  import opened Notifications
  import opened RetryPolicy

  /**
   What persist_delivery_result is given, and what it reads outside the database: the jitter draw and
   the clock the retry time is counted from.
  */
  datatype Outcome = Outcome(status: DeliveryStatus, error: string, draw: nat, readAt: Time)

  const UNKNOWN_ERROR := "Unknown Provider Error"
  const MAX_ATTEMPTS_REACHED := "Maximum retry attempts reached."

  /** validate_delivery_eligibility. */
  predicate Eligible(r: Row) {
    !(r.state in {Sent, Failed}) && !(r.attemptCount >= r.maxAttempts)
  }

  /** `result.error_message or fallback`: an empty message counts as none. */
  function ErrorText(o: Outcome, fallback: string): string {
    if o.error == "" then fallback else o.error
  }

  /** The row the final statement of the transaction writes, given the incremented row. */
  function Concluded(b: Backoff, r: Row, snapshotMax: int, o: Outcome, now: Time): Row
    requires r.attemptCount >= 1 && JitterDraw(b, r.attemptCount, o.draw)
  {
    match o.status
    case Success => MarkedSent(r, now)
    case PermanentFailure => MarkedFailed(r, ErrorText(o, UNKNOWN_ERROR), now)
    case TemporaryFailure =>
      if r.attemptCount >= snapshotMax then MarkedFailed(r, ErrorText(o, MAX_ATTEMPTS_REACHED), now)
      else RetryScheduledAt(r, NextRetryTime(b, r.attemptCount, o.readAt, o.draw).value, now)
  }

  /**
   persist_delivery_result: increment, append to the log, conclude. Every statement is checked
   on its own, and the first violation rolls all of them back. `now` is what `now()` returns in all
   of them: the time the transaction began.
  */
  function PersistTransaction(b: Backoff, t: Tables, id: NotificationId, snapshot: Row, o: Outcome, now: Time)
    : Result<Tables, DbError>
    requires id in t.rows ==> JitterDraw(b, t.rows[id].attemptCount + 1, o.draw)
  {
    if id !in t.rows then Err(NotFound)
    else
      var incremented := Incremented(t.rows[id], now);
      var attempt := Attempt(id, incremented.attemptCount, o.status, o.error);
      if !RowChecks(incremented) then Err(Violates(Violation(incremented).value))
      else if attempt.number < 1 then Err(Violates(ChkAttemptNumber))
      else if !AttemptIsUnique(t.attempts, attempt) then Err(Violates(ChkUniqueAttempt))
      else
        var concluded := Concluded(b, incremented, snapshot.maxAttempts, o, now);
        if !RowChecks(concluded) then Err(Violates(Violation(concluded).value))
        else Ok(Tables(t.rows[id := concluded], t.attempts + [attempt]))
  }

  /** The statements of the transaction, in order, without the rollback. */
  method RunStatements(b: Backoff, db: Database, id: NotificationId, snapshot: Row, o: Outcome, now: Time)
    returns (result: Result<(), DbError>)
    requires id in db.rows ==> JitterDraw(b, db.rows[id].attemptCount + 1, o.draw)
    modifies db
    ensures match PersistTransaction(b, old(db.Contents()), id, snapshot, o, now)
            case Ok(after) => result == Ok(()) && db.Contents() == after
            case Err(e) => result == Err(e)
  {
    var number := db.IncrementAttemptCount(id, now);
    if number.Err? {
      return Err(number.error);
    }
    var recorded := db.RecordDeliveryAttempt(Attempt(id, number.value, o.status, o.error));
    if recorded.Err? {
      return Err(recorded.error);
    }
    var marked: Result<Option<Row>, DbError>;
    match o.status {
      case Success =>
        marked := db.MarkSent(id, now);
      case PermanentFailure =>
        marked := db.MarkFailed(id, ErrorText(o, UNKNOWN_ERROR), now);
      case TemporaryFailure =>
        if number.value >= snapshot.maxAttempts {
          marked := db.MarkFailed(id, ErrorText(o, MAX_ATTEMPTS_REACHED), now);
        } else {
          var at := NextRetryTime(b, number.value, o.readAt, o.draw);
          marked := db.ScheduleRetry(id, at.value, now);
        }
    }
    result := if marked.Ok? then Ok(()) else Err(marked.error);
  }

  /**
   The statements under one transaction. A commit counts the attempt, logs it, stamps the row and
   concludes as the provider's answer says; anything else leaves both tables as they were.
  */
  method PersistDeliveryResult(b: Backoff, db: Database, id: NotificationId, snapshot: Row, o: Outcome, now: Time)
    returns (result: Result<(), DbError>)
    requires id in db.rows ==> JitterDraw(b, db.rows[id].attemptCount + 1, o.draw)
    modifies db
    ensures match PersistTransaction(b, old(db.Contents()), id, snapshot, o, now)
            case Ok(after) => result == Ok(()) && db.Contents() == after
            case Err(e) => result == Err(e) && db.Contents() == old(db.Contents())
    ensures result.Ok? ==>
              && id in old(db.rows)
              && var r := old(db.rows)[id];
                 var counted := r.(attemptCount := r.attemptCount + 1, lastAttemptAt := Some(now), updatedAt := now);
                 && db.attempts == old(db.attempts) + [Attempt(id, r.attemptCount + 1, o.status, o.error)]
                 && db.rows == old(db.rows)[id :=
                      if o.status == Success then counted.(state := Sent, sentAt := Some(now), nextRetryAt := None)
                      else if o.status == TemporaryFailure && r.attemptCount + 1 < snapshot.maxAttempts then
                        counted.(state := Queued, nextRetryAt := Some(o.readAt + o.draw * 1000000))
                      else
                        counted.(state := Failed, nextRetryAt := None,
                                 lastError := Some(if o.error != "" then o.error
                                                   else if o.status == PermanentFailure then "Unknown Provider Error"
                                                   else "Maximum retry attempts reached."))]
  {
    var savedRows, savedAttempts := db.rows, db.attempts;
    result := RunStatements(b, db, id, snapshot, o, now);
    if result.Err? {
      db.rows, db.attempts := savedRows, savedAttempts;
    }
  }
}
