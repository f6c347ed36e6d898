/**
 What the columns beside state and attempt count say of a notification. `now()` is the time a
 transaction began, so a persist that began early and committed late writes early timestamps: this
 module says what holds of them in every run, and exactly when one goes back.
*/
module Bookkeeping {
  import opened Prelude
  import opened Notifications
  import opened RetryPolicy
  import opened Delivery
  import opened Protocol
  import opened ProtocolSafety
  import opened Carriers
  import opened RetryHistory

  predicate During(t: Option<Time>, start: Time, end: Time) {
    t.Some? ==> start <= t.value <= end
  }

  ghost predicate Bookkept(b: Backoff, r: Row, now: Time) {
    && r.attemptCount >= 0
    && r.createdAt <= r.updatedAt <= now
    && During(r.queuedAt, r.createdAt, now)
    && During(r.lastAttemptAt, r.createdAt, r.updatedAt)
    && (r.lastAttemptAt.Some? <==> r.attemptCount > 0)
    && (r.state == Created ==> r.attemptCount == 0 && r.queuedAt.None? && r.updatedAt == r.createdAt)
    && (r.state == Sent ==> r.sentAt.Some? && r.sentAt == r.lastAttemptAt)
    && (r.state != Sent ==> r.sentAt.None?)
    && (r.state == Failed ==> r.lastError.Some? && r.lastError.value != "")
    && (RetryPending(r) ==> RetryFollowsAttempt(b, r, now))
  }

  /** A pending retry was scheduled at the last attempt; what is left to wait is at most that attempt's capped delay. */
  ghost predicate RetryFollowsAttempt(b: Backoff, r: Row, now: Time) {
    && r.state == Queued && r.attemptCount > 0
    && r.lastAttemptAt == Some(r.updatedAt)
    && During(r.nextRetryAt, r.updatedAt, now + CappedDelay(b, r.attemptCount) * SECOND)
  }

  ghost predicate RecordBookkept(b: Backoff, s: System, id: NotificationId) {
    id in s.tables.rows ==> Bookkept(b, s.tables.rows[id], s.now)
  }

  /** Columns no statement takes back: the row a run starts from, and the row it leads to. */
  predicate Advances(r: Row, r': Row) {
    && r'.createdAt == r.createdAt
    && r'.maxAttempts == r.maxAttempts
    && r'.attemptCount >= r.attemptCount
    && (r.queuedAt.Some? ==> r'.queuedAt == r.queuedAt)
    && (r.lastAttemptAt.Some? ==> r'.lastAttemptAt.Some?)
  }

  /** A persist of `id` that will commit: its worker has begun and the row does not make it abort. */
  predicate Commits(b: Backoff, s: System, step: Step, id: NotificationId) {
    && step.Persist? && CanPersist(b, s, step.worker, step.outcome)
    && s.workers[step.worker].id == id && id in s.tables.rows
    && !Aborts(s.tables.rows[id], step.outcome.status)
  }

  /** The time at which the transaction of a committing persist began. */
  function BegunAt(b: Backoff, s: System, step: Step, id: NotificationId): Time
    requires Commits(b, s, step, id)
  {
    s.workers[step.worker].begun.value
  }

  /** The times a step leaves in a row: those of the transaction it commits, or none earlier than before. */
  predicate TimesFollow(r: Row, r': Row, commit: Option<Time>) {
    match commit
    case Some(begun) => r'.updatedAt == begun && r'.lastAttemptAt == Some(begun)
    case None => r'.updatedAt >= r.updatedAt && r'.lastAttemptAt == r.lastAttemptAt
  }

  function CommitTime(b: Backoff, s: System, step: Step, id: NotificationId): Option<Time> {
    if Commits(b, s, step, id) then Some(BegunAt(b, s, step, id)) else None
  }

  ghost predicate RecordAdvances(b: Backoff, s: System, s': System, id: NotificationId, commit: Option<Time>) {
    && RecordBookkept(b, s', id)
    && (id in s.tables.rows ==>
          && id in s'.tables.rows
          && Advances(s.tables.rows[id], s'.tables.rows[id])
          && TimesFollow(s.tables.rows[id], s'.tables.rows[id], commit))
  }

  // ------------------------------------------------------------------------ row by row

  lemma DelayFitsCap(draw: nat, cap: nat)
    requires draw <= cap
    ensures draw * SECOND <= cap * SECOND
  {
  }

  lemma AttemptBookkept(b: Backoff, r: Row, snapshotMax: int, o: Outcome, begun: Time, now: Time)
    requires Bookkept(b, r, now) && JitterDraw(b, r.attemptCount + 1, o.draw)
    requires r.createdAt <= begun <= o.readAt <= now
    requires RowChecks(Concluded(b, Incremented(r, begun), snapshotMax, o, begun))
    ensures var after := Concluded(b, Incremented(r, begun), snapshotMax, o, begun);
            Bookkept(b, after, now) && Advances(r, after) && TimesFollow(r, after, Some(begun))
  {
    DelayFitsCap(o.draw, CappedDelay(b, r.attemptCount + 1));
  }

  lemma QueuedBookkept(b: Backoff, r: Row, begun: Time, now: Time)
    requires Bookkept(b, r, now) && r.state == Created && r.createdAt <= begun <= now
    ensures var after := MarkedQueued(r, begun);
            Bookkept(b, after, now) && Advances(r, after) && TimesFollow(r, after, None)
  {
  }

  lemma ClaimBookkept(b: Backoff, r: Row, begun: Time, now: Time)
    requires Bookkept(b, r, now) && Due(r, begun) && begun <= now
    ensures var after := ClaimedRow(r, begun);
            Bookkept(b, after, now) && Advances(r, after) && TimesFollow(r, after, None)
  {
  }

  // ---------------------------------------------------------------------- step by step

  lemma PersistAdvances(b: Backoff, s: System, w: nat, o: Outcome, id: NotificationId)
    requires RowInv(s, id) && RecordBookkept(b, s, id) && CanPersist(b, s, w, o)
    ensures RecordAdvances(b, s, ApplyPersist(b, s, w, o), id, CommitTime(b, s, Persist(w, o), id))
  {
    PersistTakesWorker(b, s, w, o);
    if s.workers[w].id == id {
      PersistEffect(b, s, id, s.workers[w].snapshot, o, s.workers[w].begun.value);
    }
    if s.workers[w].id == id && PersistOf(b, s, w, o).Ok? {
      AttemptBookkept(b, s.tables.rows[id], s.workers[w].snapshot.maxAttempts, o, s.workers[w].begun.value, s.now);
    } else {
      PersistSparesOthers(b, s, w, o, id);
    }
  }

  lemma MarkQueuedAdvances(b: Backoff, s: System, marked: NotificationId, begun: Time, id: NotificationId)
    requires RecordBookkept(b, s, id)
    ensures RecordAdvances(b, s, ApplyMarkQueued(s, marked, begun), id, None)
  {
    if id in s.tables.rows && s.tables.rows[id].state == Created && CanMarkQueued(s, id, begun) {
      QueuedBookkept(b, s.tables.rows[id], begun, s.now);
    }
  }

  lemma ClaimAdvances(b: Backoff, s: System, begun: Time, limit: nat, locked: set<NotificationId>, chosen: set<NotificationId>, id: NotificationId)
    requires RecordBookkept(b, s, id)
    ensures RecordAdvances(b, s, ApplyClaimStep(s, begun, limit, locked, chosen), id, None)
  {
    if id in s.tables.rows {
      ClaimEffect(s, begun, limit, locked, chosen, id);
      if begun <= s.now && Due(s.tables.rows[id], begun) {
        ClaimBookkept(b, s.tables.rows[id], begun, s.now);
      }
    }
  }

  lemma SubmitAdvances(b: Backoff, s: System, added: NotificationId, maxAttempts: int, begun: Time, id: NotificationId)
    requires RecordBookkept(b, s, id)
    ensures RecordAdvances(b, s, ApplySubmit(s, added, maxAttempts, begun), id, None)
  {
  }

  lemma QuietStepAdvances(b: Backoff, s: System, step: Step, id: NotificationId)
    requires Quiet(step) && RecordBookkept(b, s, id)
    ensures RecordAdvances(b, s, ApplyQuiet(s, step), id, None)
  {
    QuietStepKeepsRecord(s, step, id);
  }

  lemma StepAdvances(b: Backoff, s: System, step: Step, id: NotificationId)
    requires RowInv(s, id) && RecordBookkept(b, s, id)
    ensures RecordAdvances(b, s, Apply(b, s, step), id, CommitTime(b, s, step, id))
  {
    match step {
      case Submit(added, maxAttempts, begun) => SubmitAdvances(b, s, added, maxAttempts, begun, id);
      case HandlerMarkQueued(marked, begun) => MarkQueuedAdvances(b, s, marked, begun, id);
      case Persist(w, o) =>
        if CanPersist(b, s, w, o) {
          PersistAdvances(b, s, w, o, id);
        }
      case Claim(begun, limit, locked, chosen) => ClaimAdvances(b, s, begun, limit, locked, chosen, id);
      case _ => QuietStepAdvances(b, s, step, id);
    }
  }

  lemma {:induction false} RunFromAdvances(b: Backoff, s: System, steps: seq<Step>, id: NotificationId)
    requires RowInv(s, id) && RecordBookkept(b, s, id)
    ensures RecordBookkept(b, RunFrom(b, s, steps), id)
    ensures id in s.tables.rows ==>
              id in RunFrom(b, s, steps).tables.rows && Advances(s.tables.rows[id], RunFrom(b, s, steps).tables.rows[id])
    decreases |steps|
  {
    if steps != [] {
      var n := |steps| - 1;
      RunFromAdvances(b, s, steps[..n], id);
      RunFromKeepsRowInv(b, s, steps[..n], id);
      StepAdvances(b, RunFrom(b, s, steps[..n]), steps[n], id);
    }
  }

  /**
   In every reachable state: no timestamp lies before the row's creation or ahead of the clock, the
   last attempt is no later than the last update, a row has a last attempt exactly when it has
   attempts, was sent at its last attempt, failed with a reason, and has at most the capped delay of
   the attempt that scheduled its retry left to wait.
  */
  lemma RowsAreBookkept(b: Backoff, steps: seq<Step>, id: NotificationId)
    requires id in Run(b, steps).tables.rows
    ensures Bookkept(b, Run(b, steps).tables.rows[id], Run(b, steps).now)
  {
    RunFromAdvances(b, INITIAL, steps, id);
  }

  /**
   Over any further steps a row is never lost, its creation time and maximum never change, its
   attempt count never goes back, and the moment it was first queued is never overwritten.
  */
  lemma RowsOnlyAdvance(b: Backoff, steps: seq<Step>, more: seq<Step>, id: NotificationId)
    requires id in Run(b, steps).tables.rows
    ensures id in Run(b, steps + more).tables.rows
    ensures Advances(Run(b, steps).tables.rows[id], Run(b, steps + more).tables.rows[id])
  {
    RowsAreBookkept(b, steps, id);
    LogAndRowAgree(b, steps, id);
    RunConcat(b, INITIAL, steps, more);
    RunFromAdvances(b, Run(b, steps), more, id);
  }

  /**
   When a step moves a time back, from any reachable state: exactly when it commits a persist whose
   transaction began before that time. Claims and mark_queued never do.
  */
  lemma TimesGoBackIff(b: Backoff, steps: seq<Step>, step: Step, id: NotificationId)
    requires id in Run(b, steps).tables.rows
    ensures id in Run(b, steps + [step]).tables.rows
    ensures var s := Run(b, steps);
            var r, r' := s.tables.rows[id], Run(b, steps + [step]).tables.rows[id];
            && (r'.updatedAt < r.updatedAt <==> Commits(b, s, step, id) && BegunAt(b, s, step, id) < r.updatedAt)
            && (r.lastAttemptAt.Some? ==>
                  && r'.lastAttemptAt.Some?
                  && (r'.lastAttemptAt.value < r.lastAttemptAt.value <==>
                        Commits(b, s, step, id) && BegunAt(b, s, step, id) < r.lastAttemptAt.value))
  {
    RowsAreBookkept(b, steps, id);
    LogAndRowAgree(b, steps, id);
    RunFromSnoc(b, INITIAL, steps, step);
    StepAdvances(b, Run(b, steps), step, id);
  }

  // ------------------------------------------------------------ with nothing duplicated

  predicate Before(t: Time, at: Option<Time>) {
    at.Some? && t < at.value
  }

  /** A transaction in progress began after the last attempt, and before the last update only if that was mark_queued. */
  ghost predicate BegunInOrder(s: System, id: NotificationId) {
    forall i :: 0 <= i < |s.workers| && s.workers[i].id == id && s.workers[i].begun.Some? && id in s.tables.rows ==>
                  HeldInOrder(s.workers[i].begun.value, s.tables.rows[id])
  }

  predicate HeldInOrder(begun: Time, r: Row) {
    !Before(begun, r.lastAttemptAt) && (begun < r.updatedAt <==> Before(begun, r.queuedAt))
  }

  lemma BegunInOrderFrame(s: System, s': System, id: NotificationId)
    requires BegunInOrder(s, id) && NoNewWorker(s, s')
    requires id in s'.tables.rows ==> id in s.tables.rows && s'.tables.rows[id] == s.tables.rows[id]
    ensures BegunInOrder(s', id)
  {
  }

  lemma UnheldIsInOrder(s: System, id: NotificationId)
    requires HeldBy(s.workers, id) == 0
    ensures BegunInOrder(s, id)
  {
    HeldIffCounted(s, id);
    forall i | 0 <= i < |s.workers|
      ensures s.workers[i].id != id
    {
      assert !HeldByWorker(s, id);
    }
  }

  lemma PersistKeepsOrder(b: Backoff, s: System, w: nat, o: Outcome, id: NotificationId)
    requires BegunInOrder(s, id) && CanPersist(b, s, w, o) && HeldBy(s.workers, id) <= 1
    ensures BegunInOrder(ApplyPersist(b, s, w, o), id)
  {
    var s' := ApplyPersist(b, s, w, o);
    PersistTakesWorker(b, s, w, o);
    if s.workers[w].id == id {
      HeldByWithout(s.workers, w, id);
      UnheldIsInOrder(s', id);
    } else {
      PersistSparesOthers(b, s, w, o, id);
      BegunInOrderFrame(s, s', id);
    }
  }

  lemma ClaimKeepsOrder(s: System, begun: Time, limit: nat, locked: set<NotificationId>, chosen: set<NotificationId>, id: NotificationId)
    requires BegunInOrder(s, id) && id in s.tables.rows
    requires RetryPending(s.tables.rows[id]) ==> HeldBy(s.workers, id) == 0
    ensures BegunInOrder(ApplyClaimStep(s, begun, limit, locked, chosen), id)
  {
    var s' := ApplyClaimStep(s, begun, limit, locked, chosen);
    assert s'.workers == s.workers;
    ClaimEffect(s, begun, limit, locked, chosen, id);
    if RetryPending(s.tables.rows[id]) {
      UnheldIsInOrder(s', id);
    } else {
      BegunInOrderFrame(s, s', id);
    }
  }

  lemma MarkQueuedKeepsOrder(b: Backoff, s: System, marked: NotificationId, begun: Time, id: NotificationId)
    requires BegunInOrder(s, id) && RecordBookkept(b, s, id)
    ensures BegunInOrder(ApplyMarkQueued(s, marked, begun), id)
  {
  }

  /** A worker begins now, and nothing in the row is ahead of the clock. */
  lemma BeginKeepsOrder(b: Backoff, s: System, w: nat, id: NotificationId)
    requires BegunInOrder(s, id) && RecordBookkept(b, s, id)
    ensures BegunInOrder(ApplyBegin(s, w), id)
  {
    assert ApplyBegin(s, w).tables == s.tables;
  }

  lemma LoadKeepsOrder(s: System, taken: NotificationId, id: NotificationId)
    requires BegunInOrder(s, id)
    ensures BegunInOrder(ApplyLoad(s, taken), id)
  {
    assert ApplyLoad(s, taken).tables == s.tables;
  }

  lemma QuietStepKeepsOrder(b: Backoff, s: System, step: Step, id: NotificationId)
    requires Quiet(step) && BegunInOrder(s, id) && RecordBookkept(b, s, id)
    ensures BegunInOrder(ApplyQuiet(s, step), id)
  {
    if step.Load? {
      LoadKeepsOrder(s, step.id, id);
    } else if step.BeginPersist? {
      BeginKeepsOrder(b, s, step.worker, id);
    } else {
      QuietStepKeepsRecord(s, step, id);
      QuietStepAddsNoWorker(s, step);
      BegunInOrderFrame(s, ApplyQuiet(s, step), id);
    }
  }

  /** No worker holds a notification that is not there. */
  lemma NewRowIsInOrder(s: System, s': System, id: NotificationId)
    requires WorkersAgree(s, id) && id !in s.tables.rows && s'.workers == s.workers
    ensures BegunInOrder(s', id)
  {
  }

  lemma SubmitKeepsOrder(s: System, added: NotificationId, maxAttempts: int, begun: Time, id: NotificationId)
    requires BegunInOrder(s, id) && id in s.tables.rows
    ensures BegunInOrder(ApplySubmit(s, added, maxAttempts, begun), id)
  {
    BegunInOrderFrame(s, ApplySubmit(s, added, maxAttempts, begun), id);
  }

  lemma StepKeepsOrder(b: Backoff, s: System, step: Step, id: NotificationId)
    requires RowInv(s, id) && RecordBookkept(b, s, id) && BegunInOrder(s, id)
    requires CarrierCount(s, id) <= (if Live(s, id) then 1 else 0)
    ensures BegunInOrder(Apply(b, s, step), id)
  {
    match step {
      case Persist(w, o) =>
        if CanPersist(b, s, w, o) {
          PersistKeepsOrder(b, s, w, o, id);
        }
      case HandlerMarkQueued(marked, begun) => MarkQueuedKeepsOrder(b, s, marked, begun, id);
      case Claim(begun, limit, locked, chosen) =>
        if id in s.tables.rows {
          ClaimKeepsOrder(s, begun, limit, locked, chosen, id);
        } else {
          NewRowIsInOrder(s, Apply(b, s, step), id);
        }
      case Submit(added, maxAttempts, begun) =>
        if id in s.tables.rows {
          SubmitKeepsOrder(s, added, maxAttempts, begun, id);
        } else {
          NewRowIsInOrder(s, Apply(b, s, step), id);
        }
      case _ => QuietStepKeepsOrder(b, s, step, id);
    }
  }

  lemma {:induction false} OrderHolds(b: Backoff, steps: seq<Step>, id: NotificationId)
    requires NothingDuplicated(steps)
    ensures BegunInOrder(Run(b, steps), id)
    decreases |steps|
  {
    if steps != [] {
      var n := |steps| - 1;
      OrderHolds(b, steps[..n], id);
      NeverCarriedTwice(b, steps[..n], id);
      LogAndRowAgree(b, steps[..n], id);
      RunFromAdvances(b, INITIAL, steps[..n], id);
      StepKeepsOrder(b, Run(b, steps[..n]), steps[n], id);
    }
  }

  /**
   With nothing duplicated, the last attempt never goes back, and the last update goes back exactly
   when a persist commits whose transaction began before the row was marked queued.
  */
  lemma TimesGoBackWithoutDuplicatesIff(b: Backoff, steps: seq<Step>, step: Step, id: NotificationId)
    requires NothingDuplicated(steps) && id in Run(b, steps).tables.rows
    ensures id in Run(b, steps + [step]).tables.rows
    ensures var s := Run(b, steps);
            var r, r' := s.tables.rows[id], Run(b, steps + [step]).tables.rows[id];
            && (r'.updatedAt < r.updatedAt <==> Commits(b, s, step, id) && Before(BegunAt(b, s, step, id), r.queuedAt))
            && (r.lastAttemptAt.Some? ==> r'.lastAttemptAt.Some? && r'.lastAttemptAt.value >= r.lastAttemptAt.value)
  {
    TimesGoBackIff(b, steps, step, id);
    OrderHolds(b, steps, id);
  }

  // ----------------------------------------------------------------- both do go back

  /** Delivery begins at 1, is overtaken by mark_queued at 2, and commits: nothing is lost or duplicated. */
  const OVERTAKEN :=
    [Submit(0, 5, 0)] + [HandlerEnqueue(0)] + [Load(0)] + [Tick(1)] + [BeginPersist(0)] + [Tick(1)] + [HandlerMarkQueued(0, 2)]

  function Overtaken(): System {
    var row := NewRow(5, 0);
    INITIAL.(now := 2, tables := Tables(map[0 := MarkedQueued(row, 2)], []), workers := [Worker(0, row, Some(1))])
  }

  lemma LoadedBeforeMarked(b: Backoff)
    ensures Run(b, [Submit(0, 5, 0)] + [HandlerEnqueue(0)] + [Load(0)])
            == Overtaken().(now := 0, tables := Tables(map[0 := NewRow(5, 0)], []), toMark := multiset{0},
                            workers := [Worker(0, NewRow(5, 0), None)])
  {
    assert [Submit(0, 5, 0)] + [HandlerEnqueue(0)] + [Load(0)] == [Submit(0, 5, 0), HandlerEnqueue(0), Load(0)];
    RunThree(b, INITIAL, Submit(0, 5, 0), HandlerEnqueue(0), Load(0));
    var submitted := Apply(b, INITIAL, Submit(0, 5, 0));
    assert submitted == INITIAL.(tables := Tables(map[0 := NewRow(5, 0)], []), toEnqueue := multiset{0});
    var enqueued := Apply(b, submitted, HandlerEnqueue(0));
    assert enqueued == submitted.(toEnqueue := multiset{}, queue := multiset{0}, toMark := multiset{0});
  }

  lemma OvertakenReachable(b: Backoff)
    ensures Run(b, OVERTAKEN) == Overtaken()
  {
    var loaded := [Submit(0, 5, 0)] + [HandlerEnqueue(0)] + [Load(0)];
    LoadedBeforeMarked(b);
    RunFromSnoc(b, INITIAL, loaded, Tick(1));
    RunFromSnoc(b, INITIAL, loaded + [Tick(1)], BeginPersist(0));
    RunFromSnoc(b, INITIAL, loaded + [Tick(1)] + [BeginPersist(0)], Tick(1));
    var begun := loaded + [Tick(1)] + [BeginPersist(0)] + [Tick(1)];
    assert Run(b, begun) == Run(b, loaded).(now := 2, workers := [Worker(0, NewRow(5, 0), Some(1))]);
    RunFromSnoc(b, INITIAL, begun, HandlerMarkQueued(0, 2));
  }

  lemma OvertakenIsOrdinary(last: Step)
    requires last.Persist?
    ensures NothingLost(OVERTAKEN + [last]) && NothingDuplicated(OVERTAKEN + [last])
  {
  }

  lemma OvertakenGoesBack(b: Backoff, steps: seq<Step>)
    requires Run(b, steps) == Overtaken()
    ensures var s' := Run(b, steps + [Persist(0, Outcome(Success, "", 0, 2))]);
            0 in s'.tables.rows && s'.tables.rows[0].updatedAt == 1 && s'.tables.rows[0].queuedAt == Some(2)
  {
    var step := Persist(0, Outcome(Success, "", 0, 2));
    LogAndRowAgree(b, steps, 0);
    RowsAreBookkept(b, steps, 0);
    assert Commits(b, Run(b, steps), step, 0);
    StepAdvances(b, Run(b, steps), step, 0);
    RunFromSnoc(b, INITIAL, steps, step);
  }

  /** An ordinary run in which updated_at goes back, to before queued_at. */
  lemma UpdatedGoesBackReachable(b: Backoff) returns (steps: seq<Step>, step: Step)
    ensures NothingLost(steps + [step]) && NothingDuplicated(steps + [step])
    ensures 0 in Run(b, steps).tables.rows && 0 in Run(b, steps + [step]).tables.rows
    ensures var r, r' := Run(b, steps).tables.rows[0], Run(b, steps + [step]).tables.rows[0];
            r'.updatedAt < r.updatedAt && Before(r'.updatedAt, r'.queuedAt)
  {
    step := Persist(0, Outcome(Success, "", 0, 2));
    OvertakenIsOrdinary(step);
    OvertakenReachable(b);
    OvertakenGoesBack(b, OVERTAKEN);
    steps := OVERTAKEN;
  }

  const CROSSED := DUPLICATED + [BeginPersist(0)] + [Tick(1)] + [BeginPersist(1)]

  lemma CrossedReachable(b: Backoff)
    ensures Run(b, CROSSED)
            == HeldTwice().(now := 1, workers := [Worker(0, NewRow(5, 0), Some(0)), Worker(0, NewRow(5, 0), Some(1))])
  {
    HeldTwiceReachable(b);
    RunFromSnoc(b, INITIAL, DUPLICATED, BeginPersist(0));
    RunFromSnoc(b, INITIAL, DUPLICATED + [BeginPersist(0)], Tick(1));
    RunFromSnoc(b, INITIAL, DUPLICATED + [BeginPersist(0)] + [Tick(1)], BeginPersist(1));
  }

  /** Two workers hold a duplicated message; the second begins later and commits first. */
  lemma LastAttemptGoesBackReachable(b: Backoff) returns (steps: seq<Step>, step: Step)
    ensures 0 in Run(b, steps).tables.rows && 0 in Run(b, steps + [step]).tables.rows
    ensures var r, r' := Run(b, steps).tables.rows[0], Run(b, steps + [step]).tables.rows[0];
            r.lastAttemptAt.Some? && r'.lastAttemptAt.Some? && r'.lastAttemptAt.value < r.lastAttemptAt.value
  {
    var first := Persist(1, Outcome(TemporaryFailure, "", 0, 1));
    steps, step := CROSSED + [first], Persist(0, Outcome(Success, "", 0, 1));
    CrossedReachable(b);
    var s := Run(b, CROSSED);
    LogAndRowAgree(b, CROSSED, 0);
    RowsAreBookkept(b, CROSSED, 0);
    PersistEffect(b, s, 0, NewRow(5, 0), first.outcome, 1);
    PersistTakesWorker(b, s, 1, first.outcome);
    assert Commits(b, s, first, 0);
    StepAdvances(b, s, first, 0);
    RunFromSnoc(b, INITIAL, CROSSED, first);
    assert Commits(b, Run(b, steps), step, 0);
    TimesGoBackIff(b, steps, step, 0);
  }
}
