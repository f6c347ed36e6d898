/**
 The `notifications` and `delivery_attempts` tables: one value per row, the CHECK and
 UNIQUE constraints as predicates, one function per UPDATE statement, and the class
 `Database` whose methods run those statements in place.
*/
module Notifications {
  import opened Prelude

  type NotificationId = nat
  /** PostgreSQL timestamps are integral microseconds. */
  type Time = int

  datatype State = Created | Queued | Processing | Sent | Failed

  datatype DeliveryStatus = Success | TemporaryFailure | PermanentFailure

  datatype Row = Row(
    state: State,
    attemptCount: int,
    maxAttempts: int,
    nextRetryAt: Option<Time>,
    queuedAt: Option<Time>,
    lastAttemptAt: Option<Time>,
    lastError: Option<string>,
    sentAt: Option<Time>,
    createdAt: Time,
    updatedAt: Time
  )

  /** The default of the max_attempts column, which no statement overrides. */
  const DEFAULT_MAX_ATTEMPTS := 5

  /** One row of the attempt log; an empty `error` stands for none. */
  datatype Attempt = Attempt(notificationId: NotificationId, number: int, status: DeliveryStatus, error: string)

  datatype Tables = Tables(rows: map<NotificationId, Row>, attempts: seq<Attempt>)

  /** The constraints by name; a row that breaks several CHECKs is reported under the first. */
  datatype Constraint =
    | ChkAttemptBounds | ChkNextRetryAt | ChkQueuedAt | ChkRetryStates | ChkSentAtTimestamp
    | ChkTimestampSanity | ChkUpdateAfterCreated
    | ChkAttemptNumber | ChkUniqueAttempt | FkDeliveryAttemptsNotification

  datatype DbError = NotFound | Violates(constraint: Constraint)

  // ---------------------------------------------------------------- constraints

  predicate NotBefore(t: Option<Time>, start: Time) {
    t.Some? ==> t.value >= start
  }

  /** The first CHECK of notifications.sql that a row breaks. */
  function Violation(r: Row): Option<Constraint> {
    if !(r.attemptCount >= 0 && r.maxAttempts > 0 && r.attemptCount <= r.maxAttempts) then Some(ChkAttemptBounds)
    else if !NotBefore(r.nextRetryAt, r.createdAt) then Some(ChkNextRetryAt)
    else if !NotBefore(r.queuedAt, r.createdAt) then Some(ChkQueuedAt)
    else if !(r.state in {Created, Queued, Processing} || r.nextRetryAt.None?) then Some(ChkRetryStates)
    else if r.state.Sent? != r.sentAt.Some? then Some(ChkSentAtTimestamp)
    else if !(NotBefore(r.lastAttemptAt, r.createdAt) && NotBefore(r.sentAt, r.createdAt)) then Some(ChkTimestampSanity)
    else if r.updatedAt < r.createdAt then Some(ChkUpdateAfterCreated)
    else None
  }

  predicate RowChecks(r: Row) {
    Violation(r).None?
  }

  /** What the CHECKs amount to: which rows the table can hold. */
  lemma StorableRows(r: Row)
    ensures RowChecks(r) <==>
              && 0 <= r.attemptCount <= r.maxAttempts && r.maxAttempts > 0
              && (r.state == Sent <==> r.sentAt.Some?)
              && (r.state == Sent || r.state == Failed ==> r.nextRetryAt.None?)
              && (r.nextRetryAt.Some? ==> r.nextRetryAt.value >= r.createdAt)
              && (r.queuedAt.Some? ==> r.queuedAt.value >= r.createdAt)
              && (r.lastAttemptAt.Some? ==> r.lastAttemptAt.value >= r.createdAt)
              && (r.sentAt.Some? ==> r.sentAt.value >= r.createdAt)
              && r.updatedAt >= r.createdAt
  {
    assert r.state in {Created, Queued, Processing} <==> r.state == Created || r.state == Queued || r.state == Processing;
  }

  predicate Terminal(state: State) {
    state == Sent || state == Failed
  }

  predicate RetryPending(r: Row) {
    r.nextRetryAt.Some?
  }

  // ----------------------------------------------------------------- statements

  /** The row an INSERT creates: every column the statement leaves out takes its default. */
  function NewRow(maxAttempts: int, now: Time): Row {
    Row(Created, 0, maxAttempts, None, None, None, None, None, now, now)
  }

  function MarkedQueued(r: Row, now: Time): Row {
    r.(state := Queued, queuedAt := Some(now), updatedAt := now)
  }

  function Incremented(r: Row, now: Time): Row {
    r.(attemptCount := r.attemptCount + 1, lastAttemptAt := Some(now), updatedAt := now)
  }

  function MarkedSent(r: Row, now: Time): Row {
    r.(state := Sent, sentAt := Some(now), lastAttemptAt := Some(now), updatedAt := now, nextRetryAt := None)
  }

  function MarkedFailed(r: Row, error: string, now: Time): Row {
    r.(state := Failed, lastError := Some(error), lastAttemptAt := Some(now), updatedAt := now, nextRetryAt := None)
  }

  function RetryScheduledAt(r: Row, at: Time, now: Time): Row {
    r.(state := Queued, nextRetryAt := Some(at), updatedAt := now)
  }

  function ClaimedRow(r: Row, now: Time): Row {
    r.(state := Processing, nextRetryAt := None, updatedAt := now)
  }

  /** The attempts of one notification, in insertion order. */
  function LogOf(attempts: seq<Attempt>, id: NotificationId): seq<Attempt> {
    if attempts == [] then []
    else
      var a := attempts[|attempts| - 1];
      var before := LogOf(attempts[..|attempts| - 1], id);
      if a.notificationId == id then before + [a] else before
  }

  /** UNIQUE (notification_id, attempt_number), for a row about to be inserted. */
  predicate AttemptIsUnique(attempts: seq<Attempt>, a: Attempt) {
    forall i :: 0 <= i < |attempts| ==>
                  !(attempts[i].notificationId == a.notificationId && attempts[i].number == a.number)
  }

  lemma LogOfAppend(attempts: seq<Attempt>, a: Attempt, id: NotificationId)
    ensures LogOf(attempts + [a], id) == LogOf(attempts, id) + if a.notificationId == id then [a] else []
  {
    assert (attempts + [a])[..|attempts|] == attempts;
  }

  lemma {:induction false} LogOfHolds(attempts: seq<Attempt>, i: nat)
    requires i < |attempts|
    ensures attempts[i] in LogOf(attempts, attempts[i].notificationId)
  {
    if i < |attempts| - 1 {
      LogOfHolds(attempts[..|attempts| - 1], i);
    }
  }

  /** A claim may take a row only when it is due: queued, with a retry time that has passed. */
  predicate Due(r: Row, now: Time) {
    r.state == Queued && r.nextRetryAt.Some? && r.nextRetryAt.value <= now
  }

  // ---------------------------------------------------------------- the database

  class Database {
    var rows: map<NotificationId, Row>
    var attempts: seq<Attempt>

    constructor ()
      ensures rows == map[] && attempts == []
    {
      rows, attempts := map[], [];
    }

    ghost function Contents(): Tables
      reads this
    {
      Tables(rows, attempts)
    }

    /** Runs an UPDATE of one row: it takes effect only if every CHECK holds of the new row. */
    method Update(id: NotificationId, r: Row) returns (result: Result<Option<Row>, DbError>)
      requires id in rows
      modifies this`rows
      ensures result == (if RowChecks(r) then Ok(Some(r)) else Err(Violates(Violation(r).value)))
      ensures rows == if RowChecks(r) then old(rows)[id := r] else old(rows)
    {
      if RowChecks(r) {
        rows := rows[id := r];
        result := Ok(Some(r));
      } else {
        result := Err(Violates(Violation(r).value));
      }
    }

    /** The INSERT of create_notification; `id` is the fresh UUID the table draws. */
    method CreateNotification(id: NotificationId, now: Time) returns (row: Row)
      requires id !in rows
      modifies this`rows
      ensures row == NewRow(DEFAULT_MAX_ATTEMPTS, now) && rows == old(rows)[id := row]
    {
      row := NewRow(DEFAULT_MAX_ATTEMPTS, now);
      rows := rows[id := row];
    }

    method GetNotification(id: NotificationId) returns (row: Option<Row>)
      ensures row == if id in rows then Some(rows[id]) else None
    {
      row := if id in rows then Some(rows[id]) else None;
    }

    /** Guarded by `state = 'created'`; any other row is left alone. */
    method MarkQueued(id: NotificationId, now: Time) returns (result: Result<Option<Row>, DbError>)
      modifies this`rows
      ensures !(id in old(rows) && old(rows)[id].state == Created) ==> rows == old(rows) && result == Ok(None)
      ensures id in old(rows) && old(rows)[id].state == Created ==>
                var r := MarkedQueued(old(rows)[id], now);
                if RowChecks(r) then result == Ok(Some(r)) && rows == old(rows)[id := r]
                else result == Err(Violates(Violation(r).value)) && rows == old(rows)
    {
      result := Ok(None);
      if id in rows && rows[id].state == Created {
        result := Update(id, MarkedQueued(rows[id], now));
      }
    }

    method IncrementAttemptCount(id: NotificationId, now: Time) returns (result: Result<int, DbError>)
      modifies this`rows
      ensures id !in old(rows) ==> result == Err(NotFound) && rows == old(rows)
      ensures id in old(rows) ==>
                var r := Incremented(old(rows)[id], now);
                if RowChecks(r) then result == Ok(r.attemptCount) && rows == old(rows)[id := r]
                else result == Err(Violates(Violation(r).value)) && rows == old(rows)
    {
      if id !in rows {
        return Err(NotFound);
      }
      var updated := Update(id, Incremented(rows[id], now));
      result := if updated.Ok? then Ok(rows[id].attemptCount) else Err(updated.error);
    }

    method MarkSent(id: NotificationId, now: Time) returns (result: Result<Option<Row>, DbError>)
      modifies this`rows
      ensures id !in old(rows) ==> rows == old(rows) && result == Ok(None)
      ensures id in old(rows) ==>
                var r := MarkedSent(old(rows)[id], now);
                if RowChecks(r) then result == Ok(Some(r)) && rows == old(rows)[id := r]
                else result == Err(Violates(Violation(r).value)) && rows == old(rows)
    {
      result := Ok(None);
      if id in rows {
        result := Update(id, MarkedSent(rows[id], now));
      }
    }

    method MarkFailed(id: NotificationId, error: string, now: Time) returns (result: Result<Option<Row>, DbError>)
      modifies this`rows
      ensures id !in old(rows) ==> rows == old(rows) && result == Ok(None)
      ensures id in old(rows) ==>
                var r := MarkedFailed(old(rows)[id], error, now);
                if RowChecks(r) then result == Ok(Some(r)) && rows == old(rows)[id := r]
                else result == Err(Violates(Violation(r).value)) && rows == old(rows)
    {
      result := Ok(None);
      if id in rows {
        result := Update(id, MarkedFailed(rows[id], error, now));
      }
    }

    method ScheduleRetry(id: NotificationId, at: Time, now: Time) returns (result: Result<Option<Row>, DbError>)
      modifies this`rows
      ensures id !in old(rows) ==> rows == old(rows) && result == Ok(None)
      ensures id in old(rows) ==>
                var r := RetryScheduledAt(old(rows)[id], at, now);
                if RowChecks(r) then result == Ok(Some(r)) && rows == old(rows)[id := r]
                else result == Err(Violates(Violation(r).value)) && rows == old(rows)
    {
      result := Ok(None);
      if id in rows {
        result := Update(id, RetryScheduledAt(rows[id], at, now));
      }
    }

    /** INSERT into the attempt log, under its FOREIGN KEY, UNIQUE and CHECK constraints. */
    method RecordDeliveryAttempt(a: Attempt) returns (result: Result<Attempt, DbError>)
      modifies this`attempts
      ensures result.Ok? <==>
                && a.notificationId in rows && a.number >= 1
                && forall i :: 0 <= i < |old(attempts)| ==>
                                 old(attempts)[i].notificationId != a.notificationId || old(attempts)[i].number != a.number
      ensures result.Ok? ==> result == Ok(a) && attempts == old(attempts) + [a]
      ensures result.Err? ==> attempts == old(attempts)
      ensures result.Err? ==>
                result == Err(Violates(if a.number < 1 then ChkAttemptNumber
                                       else if !AttemptIsUnique(old(attempts), a) then ChkUniqueAttempt
                                       else FkDeliveryAttemptsNotification))
    {
      if a.number < 1 {
        return Err(Violates(ChkAttemptNumber));
      }
      for i := 0 to |attempts|
        invariant attempts == old(attempts)
        invariant AttemptIsUnique(attempts[..i], a)
      {
        if attempts[i].notificationId == a.notificationId && attempts[i].number == a.number {
          return Err(Violates(ChkUniqueAttempt));
        }
      }
      assert attempts[..|attempts|] == attempts;
      if a.notificationId !in rows {
        return Err(Violates(FkDeliveryAttemptsNotification));
      }
      attempts := attempts + [a];
      result := Ok(a);
    }
  }
}
