/**
 The delivery engine as a state machine: API handlers, the queue, stateless workers, retry
 schedulers and the two tables, interleaved in any order.

 A step whose guard fails leaves the state alone, so a run is any sequence of steps and a
 theorem about `Run` covers every interleaving. Queue duplication and every loss (a crashed
 handler, worker or scheduler, a dropped message, a failed enqueue) are steps as well.
*/
module Protocol {
  import opened Prelude
  import opened Notifications
  import opened RetryPolicy
  import opened Delivery
  import opened Claims

  /**
   A worker that passed the eligibility check, with the row it loaded, which may go stale, and the
   time its persist transaction began, once it has.
  */
  datatype Worker = Worker(id: NotificationId, snapshot: Row, begun: Option<Time>)

  /** What committed transactions did to the retry time of one notification, oldest first. */
  datatype Event = RetryScheduled(number: int, delay: nat, readAt: Time) | Claimed(begun: Time)

  datatype System = System(
    now: Time,
    tables: Tables,
    toEnqueue: multiset<NotificationId>,   // handlers between commit and enqueue
    toMark: multiset<NotificationId>,      // handlers between enqueue and mark_queued
    queue: multiset<NotificationId>,
    workers: seq<Worker>,                  // workers between eligibility check and persist
    claimed: multiset<NotificationId>,     // schedulers' claimed rows, not yet enqueued
    history: map<NotificationId, seq<Event>>
  )

  /** A transaction sees one `now()`, the time it began, however much later its statements run and it commits. */
  datatype Step =
    | Tick(dt: nat)
    | Submit(id: NotificationId, maxAttempts: int, begun: Time)
    | HandlerEnqueue(id: NotificationId)
    | HandlerMarkQueued(id: NotificationId, begun: Time)
    | Load(id: NotificationId)
    | BeginPersist(worker: nat)
    | Persist(worker: nat, outcome: Outcome)
    | Claim(begun: Time, limit: nat, locked: set<NotificationId>, chosen: set<NotificationId>)
    | SchedulerEnqueue(id: NotificationId)
    | Duplicate(id: NotificationId)
    | LoseMessage(id: NotificationId)
    | CrashHandler(id: NotificationId)
    | CrashWorker(worker: nat)
    | CrashScheduler(id: NotificationId)

  const INITIAL := System(0, Tables(map[], []), multiset{}, multiset{}, multiset{}, [], multiset{}, map[])

  function HistoryOf(s: System, id: NotificationId): seq<Event> {
    if id in s.history then s.history[id] else []
  }

  /** A new request commits its row; the handler goes on to enqueue it. */
  function ApplySubmit(s: System, id: NotificationId, maxAttempts: int, begun: Time): System {
    var row := NewRow(maxAttempts, begun);
    if id in s.tables.rows || !RowChecks(row) || begun > s.now then s
    else s.(tables := s.tables.(rows := s.tables.rows[id := row]), toEnqueue := s.toEnqueue + multiset{id})
  }

  /** The handler's UPDATE begins after its own row was committed, but may wait for a lock. */
  predicate CanMarkQueued(s: System, id: NotificationId, begun: Time) {
    s.toMark[id] > 0 && begun <= s.now && (id in s.tables.rows ==> s.tables.rows[id].createdAt <= begun)
  }

  function ApplyMarkQueued(s: System, id: NotificationId, begun: Time): System {
    if !CanMarkQueued(s, id, begun) then s
    else
      var s' := s.(toMark := s.toMark - multiset{id});
      if id in s.tables.rows && s.tables.rows[id].state == Created
         && RowChecks(MarkedQueued(s.tables.rows[id], begun)) then
        s'.(tables := s.tables.(rows := s.tables.rows[id := MarkedQueued(s.tables.rows[id], begun)]))
      else s'
  }

  /** A worker takes a message, reloads the row and keeps going only if it is eligible. */
  function ApplyLoad(s: System, id: NotificationId): System {
    if s.queue[id] == 0 then s
    else
      var s' := s.(queue := s.queue - multiset{id});
      if id in s.tables.rows && Eligible(s.tables.rows[id]) then
        s'.(workers := s.workers + [Worker(id, s.tables.rows[id], None)])
      else s'
  }

  function Without(workers: seq<Worker>, w: nat): seq<Worker>
    requires w < |workers|
  {
    workers[..w] + workers[w + 1..]
  }

  /** BEGIN: `now()` is fixed from here on. */
  function ApplyBegin(s: System, w: nat): System {
    if w >= |s.workers| || s.workers[w].begun.Some? then s
    else s.(workers := s.workers[w := s.workers[w].(begun := Some(s.now))])
  }

  predicate CanPersist(b: Backoff, s: System, w: nat, o: Outcome) {
    && w < |s.workers|
    && s.workers[w].begun.Some?
    && s.workers[w].begun.value <= o.readAt <= s.now
    && (s.workers[w].id in s.tables.rows ==>
          JitterDraw(b, s.tables.rows[s.workers[w].id].attemptCount + 1, o.draw))
  }

  function PersistOf(b: Backoff, s: System, w: nat, o: Outcome): Result<Tables, DbError>
    requires CanPersist(b, s, w, o)
  {
    PersistTransaction(b, s.tables, s.workers[w].id, s.workers[w].snapshot, o, s.workers[w].begun.value)
  }

  /** The worker persists the provider's outcome; an aborted transaction changes no row. */
  function ApplyPersist(b: Backoff, s: System, w: nat, o: Outcome): System {
    if !CanPersist(b, s, w, o) then s
    else
      var id := s.workers[w].id;
      var s' := s.(workers := Without(s.workers, w));
      match PersistOf(b, s, w, o)
      case Err(_) => s'
      case Ok(after) =>
        var number := after.attempts[|after.attempts| - 1].number;
        if o.status == TemporaryFailure && number < s.workers[w].snapshot.maxAttempts then
          s'.(tables := after, history := s.history[id := HistoryOf(s, id) + [RetryScheduled(number, o.draw, o.readAt)]])
        else s'.(tables := after)
  }

  /** One scheduler claims a batch in one transaction, skipping the rows others hold locked. */
  ghost function ApplyClaimStep(s: System, begun: Time, limit: nat, locked: set<NotificationId>, chosen: set<NotificationId>): System {
    if begun > s.now || !(IsClaim(s.tables.rows, begun, limit, locked, chosen) && ClaimChecks(s.tables.rows, chosen, begun)) then s
    else
      s.(tables := s.tables.(rows := ApplyClaim(s.tables.rows, chosen, begun)),
         claimed := s.claimed + multiset(chosen),
         history := map id | id in s.history.Keys + chosen ::
           if id in chosen then HistoryOf(s, id) + [Claimed(begun)] else s.history[id])
  }

  /** The steps that touch neither table: they move, copy or drop a message, or a worker. */
  predicate Quiet(step: Step) {
    !step.Submit? && !step.HandlerMarkQueued? && !step.Persist? && !step.Claim?
  }

  function ApplyQuiet(s: System, step: Step): System
    requires Quiet(step)
  {
    match step
    case Tick(dt) => s.(now := s.now + dt)
    case HandlerEnqueue(id) =>
      if s.toEnqueue[id] == 0 then s
      else s.(toEnqueue := s.toEnqueue - multiset{id}, queue := s.queue + multiset{id}, toMark := s.toMark + multiset{id})
    case Load(id) => ApplyLoad(s, id)
    case BeginPersist(w) => ApplyBegin(s, w)
    case SchedulerEnqueue(id) =>
      if s.claimed[id] == 0 then s
      else s.(claimed := s.claimed - multiset{id}, queue := s.queue + multiset{id})
    case Duplicate(id) => if id in s.tables.rows then s.(queue := s.queue + multiset{id}) else s
    case LoseMessage(id) => s.(queue := s.queue - multiset{id})
    case CrashHandler(id) => s.(toEnqueue := s.toEnqueue - multiset{id})
    case CrashWorker(w) => if w < |s.workers| then s.(workers := Without(s.workers, w)) else s
    case CrashScheduler(id) => s.(claimed := s.claimed - multiset{id})
  }

  ghost function Apply(b: Backoff, s: System, step: Step): System {
    match step
    case Submit(id, maxAttempts, begun) => ApplySubmit(s, id, maxAttempts, begun)
    case HandlerMarkQueued(id, begun) => ApplyMarkQueued(s, id, begun)
    case Persist(w, o) => ApplyPersist(b, s, w, o)
    case Claim(begun, limit, locked, chosen) => ApplyClaimStep(s, begun, limit, locked, chosen)
    case _ => ApplyQuiet(s, step)
  }

  ghost function RunFrom(b: Backoff, s: System, steps: seq<Step>): System {
    if steps == [] then s
    else Apply(b, RunFrom(b, s, steps[..|steps| - 1]), steps[|steps| - 1])
  }

  ghost function Run(b: Backoff, steps: seq<Step>): System {
    RunFrom(b, INITIAL, steps)
  }

  lemma RunFromSnoc(b: Backoff, s: System, steps: seq<Step>, step: Step)
    ensures RunFrom(b, s, steps + [step]) == Apply(b, RunFrom(b, s, steps), step)
  {
    assert (steps + [step])[..|steps|] == steps;
  }

  lemma RunTwo(b: Backoff, s: System, x: Step, y: Step)
    ensures RunFrom(b, s, [x, y]) == Apply(b, Apply(b, s, x), y)
  {
    RunFromSnoc(b, s, [], x);
    RunFromSnoc(b, s, [x], y);
    assert [] + [x] == [x] && [x] + [y] == [x, y];
  }

  lemma RunThree(b: Backoff, s: System, x: Step, y: Step, z: Step)
    ensures RunFrom(b, s, [x, y, z]) == Apply(b, Apply(b, Apply(b, s, x), y), z)
  {
    RunTwo(b, s, x, y);
    RunFromSnoc(b, s, [x, y], z);
    assert [x, y] + [z] == [x, y, z];
  }

  lemma {:induction false} RunConcat(b: Backoff, s: System, first: seq<Step>, more: seq<Step>)
    ensures RunFrom(b, s, first + more) == RunFrom(b, RunFrom(b, s, first), more)
    decreases |more|
  {
    if more == [] {
      assert first + more == first;
    } else {
      var n := |more| - 1;
      assert (first + more)[..|first + more| - 1] == first + more[..n];
      RunConcat(b, s, first, more[..n]);
    }
  }

  // ------------------------------------------------------- the invariant, row by row

  function StatusesOf(log: seq<Attempt>): seq<DeliveryStatus> {
    seq(|log|, i requires 0 <= i < |log| => log[i].status)
  }

  datatype Phase = Fresh | Waiting | Delivered | Dead

  /** Where a log leaves a notification, read from the log alone. */
  function Replay(statuses: seq<DeliveryStatus>, maxAttempts: int): Phase {
    if statuses == [] then Fresh
    else match statuses[|statuses| - 1]
      case Success => Delivered
      case PermanentFailure => Dead
      case TemporaryFailure => if |statuses| >= maxAttempts then Dead else Waiting
  }

  /** The row shows the phase its log replays to. */
  predicate Shows(r: Row, phase: Phase) {
    match phase
    case Fresh => (r.state == Created || r.state == Queued) && r.nextRetryAt.None?
    case Waiting => (r.state == Queued && r.nextRetryAt.Some?) || (r.state == Processing && r.nextRetryAt.None?)
    case Delivered => r.state == Sent && r.nextRetryAt.None?
    case Dead => r.state == Failed && r.nextRetryAt.None?
  }

  /** Once a success is logged, nothing but successes follow. */
  ghost predicate SuccessesAreSuffix(statuses: seq<DeliveryStatus>) {
    forall i, j :: 0 <= i < j < |statuses| && statuses[i] == Success ==> statuses[j] == Success
  }

  ghost predicate LogAgreesAt(t: Tables, now: Time, id: NotificationId) {
    var log := LogOf(t.attempts, id);
    if id !in t.rows then log == []
    else
      var r := t.rows[id];
      && RowChecks(r)
      && r.createdAt <= now
      && |log| == r.attemptCount
      && (forall i :: 0 <= i < |log| ==> log[i].number == i + 1)
      && Shows(r, Replay(StatusesOf(log), r.maxAttempts))
      && SuccessesAreSuffix(StatusesOf(log))
      && (r.state == Failed ==> log != [] && r.lastError == Some(Reason(log[|log| - 1])))
  }

  /** What a failed attempt leaves as the row's last error. */
  function Reason(a: Attempt): string {
    if a.error != "" then a.error
    else if a.status == PermanentFailure then UNKNOWN_ERROR
    else MAX_ATTEMPTS_REACHED
  }

  ghost predicate LogAgrees(s: System, id: NotificationId) {
    LogAgreesAt(s.tables, s.now, id)
  }

  ghost predicate WorkersAgree(s: System, id: NotificationId) {
    forall i :: 0 <= i < |s.workers| && s.workers[i].id == id ==>
                  && id in s.tables.rows
                  && s.workers[i].snapshot.maxAttempts == s.tables.rows[id].maxAttempts
                  && (s.workers[i].begun.Some? ==> s.tables.rows[id].createdAt <= s.workers[i].begun.value <= s.now)
  }

  /** Messages, handlers and schedulers only ever speak of stored notifications. */
  predicate NothingDangles(s: System, id: NotificationId) {
    id !in s.tables.rows ==>
      s.toEnqueue[id] == 0 && s.queue[id] == 0 && s.claimed[id] == 0 && id !in s.history
  }

  ghost predicate RowInv(s: System, id: NotificationId) {
    LogAgrees(s, id) && WorkersAgree(s, id) && NothingDangles(s, id)
  }

  /** Inserting `a` cannot collide: the log already holds exactly the numbers 1..|log|. */
  lemma NextNumberIsUnique(attempts: seq<Attempt>, a: Attempt)
    requires forall i :: 0 <= i < |LogOf(attempts, a.notificationId)| ==> LogOf(attempts, a.notificationId)[i].number == i + 1
    requires a.number == |LogOf(attempts, a.notificationId)| + 1
    ensures AttemptIsUnique(attempts, a)
  {
    forall i | 0 <= i < |attempts|
      ensures !(attempts[i].notificationId == a.notificationId && attempts[i].number == a.number)
    {
      LogOfHolds(attempts, i);
    }
  }

  /** Whether the transaction aborts, decided by the row before it runs. */
  predicate Aborts(r: Row, status: DeliveryStatus) {
    r.attemptCount == r.maxAttempts || (r.state == Sent && status != Success)
  }

  /** The effect of a persist transaction, begun at `start`, on a row that agrees with its log. */
  lemma PersistEffect(b: Backoff, s: System, id: NotificationId, snapshot: Row, o: Outcome, start: Time)
    requires LogAgrees(s, id) && id in s.tables.rows
    requires snapshot.maxAttempts == s.tables.rows[id].maxAttempts
    requires JitterDraw(b, s.tables.rows[id].attemptCount + 1, o.draw)
    requires s.tables.rows[id].createdAt <= start <= o.readAt
    ensures var r := s.tables.rows[id];
            var result := PersistTransaction(b, s.tables, id, snapshot, o, start);
            if Aborts(r, o.status) then
              result == Err(Violates(if r.attemptCount == r.maxAttempts then ChkAttemptBounds else ChkSentAtTimestamp))
            else
              && result.Ok?
              && result.value.attempts == s.tables.attempts + [Attempt(id, r.attemptCount + 1, o.status, o.error)]
              && id in result.value.rows
              && result.value.rows == s.tables.rows[id := result.value.rows[id]]
              && var after := result.value.rows[id];
                 && after.attemptCount == r.attemptCount + 1
                 && after.maxAttempts == r.maxAttempts
                 && after.createdAt == r.createdAt
                 && RowChecks(after)
                 && Shows(after, Replay(StatusesOf(LogOf(s.tables.attempts, id)) + [o.status], r.maxAttempts))
                 && (RetryPending(after) <==> o.status == TemporaryFailure && r.attemptCount + 1 < r.maxAttempts)
                 && (RetryPending(after) ==> after.nextRetryAt.value == o.readAt + o.draw * SECOND)
                 && after.lastError
                    == (if after.state != Failed then r.lastError
                        else if o.error != "" then Some(o.error)
                        else if o.status == PermanentFailure then Some("Unknown Provider Error")
                        else Some("Maximum retry attempts reached."))
  {
    var r := s.tables.rows[id];
    if r.attemptCount < r.maxAttempts {
      NextNumberIsUnique(s.tables.attempts, Attempt(id, r.attemptCount + 1, o.status, o.error));
    }
  }
}
