/**
 Safety of the delivery engine over every run: stale snapshots, duplicated messages and losses
 included.
*/
module ProtocolSafety {
  import opened Prelude
  import opened Notifications
  import opened RetryPolicy
  import opened Delivery
  import opened Claims
  import opened Protocol

  // ------------------------------------------------------------- steps keep the invariant

  lemma ReplayAppend(log: seq<Attempt>, a: Attempt)
    ensures StatusesOf(log + [a]) == StatusesOf(log) + [a.status]
  {
  }

  /** Everything the tables and the history say about `id` is the same in both states. */
  predicate SameRecord(s: System, s': System, id: NotificationId) {
    && (id in s.tables.rows <==> id in s'.tables.rows)
    && (id in s.tables.rows ==> s'.tables.rows[id] == s.tables.rows[id])
    && LogOf(s'.tables.attempts, id) == LogOf(s.tables.attempts, id)
    && (id in s.history <==> id in s'.history)
    && HistoryOf(s', id) == HistoryOf(s, id)
  }

  predicate NoNewWorker(s: System, s': System) {
    forall i :: 0 <= i < |s'.workers| ==> s'.workers[i] in s.workers
  }

  lemma LogAgreesFrame(s: System, s': System, id: NotificationId)
    requires LogAgrees(s, id) && SameRecord(s, s', id) && s'.now >= s.now
    ensures LogAgrees(s', id)
  {
  }

  lemma WorkersAgreeFrame(s: System, s': System, id: NotificationId)
    requires WorkersAgree(s, id) && NoNewWorker(s, s') && s'.now >= s.now
    requires id in s.tables.rows ==>
               && id in s'.tables.rows
               && s'.tables.rows[id].maxAttempts == s.tables.rows[id].maxAttempts
               && s'.tables.rows[id].createdAt == s.tables.rows[id].createdAt
    ensures WorkersAgree(s', id)
  {
  }

  /** A worker is removed, so every worker left was there before. */
  lemma WithoutKeeps(workers: seq<Worker>, w: nat)
    requires w < |workers|
    ensures forall i :: 0 <= i < |Without(workers, w)| ==> Without(workers, w)[i] in workers
  {
  }

  lemma QuietStepKeepsRecord(s: System, step: Step, id: NotificationId)
    requires Quiet(step)
    ensures SameRecord(s, ApplyQuiet(s, step), id) && ApplyQuiet(s, step).now >= s.now
  {
  }

  lemma QuietStepAddsNoWorker(s: System, step: Step)
    requires Quiet(step) && !step.Load? && !step.BeginPersist?
    ensures NoNewWorker(s, ApplyQuiet(s, step))
  {
    var s' := ApplyQuiet(s, step);
    if step.CrashWorker? && step.worker < |s.workers| {
      WithoutKeeps(s.workers, step.worker);
    } else {
      assert s'.workers == s.workers;
    }
  }

  lemma QuietStepDanglesNothing(s: System, step: Step, id: NotificationId)
    requires Quiet(step) && NothingDangles(s, id)
    ensures NothingDangles(ApplyQuiet(s, step), id)
  {
  }

  /** What a committed persist transaction writes, whatever it started from. */
  lemma PersistShape(b: Backoff, s: System, w: nat, o: Outcome)
    requires CanPersist(b, s, w, o) && PersistOf(b, s, w, o).Ok?
    ensures var id := s.workers[w].id;
            var after := PersistOf(b, s, w, o).value;
            && id in s.tables.rows && id in after.rows
            && after.rows == s.tables.rows[id := after.rows[id]]
            && after.attempts == s.tables.attempts + [Attempt(id, s.tables.rows[id].attemptCount + 1, o.status, o.error)]
  {
  }

  /** A persist appends its attempt when it commits and nothing when it aborts. */
  lemma PersistAppends(b: Backoff, s: System, w: nat, o: Outcome)
    requires CanPersist(b, s, w, o) && s.workers[w].id in s.tables.rows
    ensures var id := s.workers[w].id;
            ApplyPersist(b, s, w, o).tables.attempts
            == s.tables.attempts
               + if PersistOf(b, s, w, o).Ok? then [Attempt(id, s.tables.rows[id].attemptCount + 1, o.status, o.error)] else []
  {
    assert s.tables.attempts + [] == s.tables.attempts;
  }

  /** A persist that aborts, or belongs to another notification, leaves this one's record alone. */
  lemma PersistSparesOthers(b: Backoff, s: System, w: nat, o: Outcome, id: NotificationId)
    requires CanPersist(b, s, w, o) && (s.workers[w].id != id || PersistOf(b, s, w, o).Err?)
    ensures SameRecord(s, ApplyPersist(b, s, w, o), id)
  {
    if PersistOf(b, s, w, o).Ok? {
      PersistShape(b, s, w, o);
      LogOfAppend(s.tables.attempts, PersistOf(b, s, w, o).value.attempts[|s.tables.attempts|], id);
    }
  }

  /** All a persist does outside the tables and the history is to take its worker away. */
  lemma PersistTakesWorker(b: Backoff, s: System, w: nat, o: Outcome)
    requires CanPersist(b, s, w, o)
    ensures var s' := ApplyPersist(b, s, w, o);
            && s' == s.(tables := s'.tables, history := s'.history, workers := Without(s.workers, w))
            && NoNewWorker(s, s')
  {
    WithoutKeeps(s.workers, w);
  }

  lemma PersistKeepsLog(b: Backoff, s: System, id: NotificationId, snapshot: Row, o: Outcome, start: Time)
    requires LogAgrees(s, id) && id in s.tables.rows && snapshot.maxAttempts == s.tables.rows[id].maxAttempts
    requires JitterDraw(b, s.tables.rows[id].attemptCount + 1, o.draw)
    requires s.tables.rows[id].createdAt <= start <= o.readAt
    requires PersistTransaction(b, s.tables, id, snapshot, o, start).Ok?
    ensures var after := PersistTransaction(b, s.tables, id, snapshot, o, start).value;
            id in after.rows && LogAgrees(s.(tables := after), id)
            && after.rows[id].maxAttempts == s.tables.rows[id].maxAttempts
            && after.rows[id].createdAt == s.tables.rows[id].createdAt
  {
    var log := LogOf(s.tables.attempts, id);
    PersistEffect(b, s, id, snapshot, o, start);
    var a := Attempt(id, s.tables.rows[id].attemptCount + 1, o.status, o.error);
    LogOfAppend(s.tables.attempts, a, id);
    ReplayAppend(log, a);
  }

  lemma PersistKeepsRowInv(b: Backoff, s: System, w: nat, o: Outcome, id: NotificationId)
    requires RowInv(s, id) && CanPersist(b, s, w, o)
    ensures RowInv(ApplyPersist(b, s, w, o), id)
  {
    var s' := ApplyPersist(b, s, w, o);
    PersistTakesWorker(b, s, w, o);
    if s.workers[w].id == id && PersistOf(b, s, w, o).Ok? {
      PersistKeepsLog(b, s, id, s.workers[w].snapshot, o, s.workers[w].begun.value);
      var mid := s.(tables := s'.tables);
      assert LogAgrees(mid, id);
      assert LogAgrees(s', id);
    } else {
      PersistSparesOthers(b, s, w, o, id);
      LogAgreesFrame(s, s', id);
    }
    WorkersAgreeFrame(s, s', id);
  }

  lemma ClaimKeepsRowInv(s: System, begun: Time, limit: nat, locked: set<NotificationId>, chosen: set<NotificationId>, id: NotificationId)
    requires RowInv(s, id)
    ensures RowInv(ApplyClaimStep(s, begun, limit, locked, chosen), id)
  {
    var s' := ApplyClaimStep(s, begun, limit, locked, chosen);
    WorkersAgreeFrame(s, s', id);
  }

  lemma LoadKeepsRowInv(s: System, taken: NotificationId, id: NotificationId)
    requires RowInv(s, id)
    ensures RowInv(ApplyLoad(s, taken), id)
  {
    LogAgreesFrame(s, ApplyLoad(s, taken), id);
  }

  /** BEGIN takes the clock reading and nothing else. */
  lemma BeginKeepsRowInv(s: System, w: nat, id: NotificationId)
    requires RowInv(s, id)
    ensures RowInv(ApplyBegin(s, w), id)
  {
    LogAgreesFrame(s, ApplyBegin(s, w), id);
  }

  lemma SubmitKeepsRowInv(s: System, added: NotificationId, maxAttempts: int, begun: Time, id: NotificationId)
    requires RowInv(s, id)
    ensures RowInv(ApplySubmit(s, added, maxAttempts, begun), id)
  {
    var s' := ApplySubmit(s, added, maxAttempts, begun);
    if added != id || id in s.tables.rows {
      LogAgreesFrame(s, s', id);
    }
    WorkersAgreeFrame(s, s', id);
  }

  lemma MarkQueuedKeepsRowInv(s: System, marked: NotificationId, begun: Time, id: NotificationId)
    requires RowInv(s, id)
    ensures RowInv(ApplyMarkQueued(s, marked, begun), id)
  {
    var s' := ApplyMarkQueued(s, marked, begun);
    if marked != id {
      LogAgreesFrame(s, s', id);
    }
    WorkersAgreeFrame(s, s', id);
  }

  lemma StepKeepsRowInv(b: Backoff, s: System, step: Step, id: NotificationId)
    requires RowInv(s, id)
    ensures RowInv(Apply(b, s, step), id)
  {
    match step {
      case Submit(added, maxAttempts, begun) => SubmitKeepsRowInv(s, added, maxAttempts, begun, id);
      case HandlerMarkQueued(marked, begun) => MarkQueuedKeepsRowInv(s, marked, begun, id);
      case Load(taken) => LoadKeepsRowInv(s, taken, id);
      case BeginPersist(w) => BeginKeepsRowInv(s, w, id);
      case Persist(w, o) =>
        if CanPersist(b, s, w, o) {
          PersistKeepsRowInv(b, s, w, o, id);
        }
      case Claim(begun, limit, locked, chosen) => ClaimKeepsRowInv(s, begun, limit, locked, chosen, id);
      case _ =>
        QuietStepKeepsRowInv(b, s, step, id);
    }
  }

  lemma QuietStepKeepsRowInv(b: Backoff, s: System, step: Step, id: NotificationId)
    requires RowInv(s, id) && Quiet(step) && !step.Load? && !step.BeginPersist?
    ensures RowInv(Apply(b, s, step), id)
  {
    var s' := Apply(b, s, step);
    QuietStepKeepsRecord(s, step, id);
    QuietStepAddsNoWorker(s, step);
    QuietStepDanglesNothing(s, step, id);
    LogAgreesFrame(s, s', id);
    WorkersAgreeFrame(s, s', id);
  }

  lemma {:induction false} RunFromKeepsRowInv(b: Backoff, s: System, steps: seq<Step>, id: NotificationId)
    requires RowInv(s, id)
    ensures RowInv(RunFrom(b, s, steps), id)
    decreases |steps|
  {
    if steps != [] {
      var n := |steps| - 1;
      RunFromKeepsRowInv(b, s, steps[..n], id);
      StepKeepsRowInv(b, RunFrom(b, s, steps[..n]), steps[n], id);
    }
  }

  /**
   Log and row agree in every reachable state: the attempts are numbered 1..attempt_count, the
   row shows what its log replays to, and the successes of a log are a suffix of it.
  */
  lemma LogAndRowAgree(b: Backoff, steps: seq<Step>, id: NotificationId)
    ensures var s := Run(b, steps);
            var log := LogOf(s.tables.attempts, id);
            if id !in s.tables.rows then log == []
            else
              var r := s.tables.rows[id];
              && |log| == r.attemptCount
              && (forall i :: 0 <= i < |log| ==> log[i].number == i + 1)
              && Shows(r, Replay(StatusesOf(log), r.maxAttempts))
              && SuccessesAreSuffix(StatusesOf(log))
    ensures RowInv(Run(b, steps), id)
  {
    RunFromKeepsRowInv(b, INITIAL, steps, id);
  }

  /** A failed notification keeps the error its last logged attempt gave, or the stock text for one that gave none. */
  lemma FailedRowKeepsItsReason(b: Backoff, steps: seq<Step>, id: NotificationId)
    requires id in Run(b, steps).tables.rows && Run(b, steps).tables.rows[id].state == Failed
    ensures var s := Run(b, steps);
            var log := LogOf(s.tables.attempts, id);
            && log != [] && log[|log| - 1].status != Success
            && s.tables.rows[id].lastError
               == Some(if log[|log| - 1].error != "" then log[|log| - 1].error
                       else if log[|log| - 1].status == PermanentFailure then "Unknown Provider Error"
                       else "Maximum retry attempts reached.")
  {
    LogAndRowAgree(b, steps, id);
  }

  /** A notification is sent exactly when its log holds a success. */
  lemma SentIffLoggedSuccess(b: Backoff, steps: seq<Step>, id: NotificationId)
    ensures var s := Run(b, steps);
            id in s.tables.rows ==>
              (s.tables.rows[id].state == Sent <==> exists a :: a in LogOf(s.tables.attempts, id) && a.status == Success)
  {
    LogAndRowAgree(b, steps, id);
    var s := Run(b, steps);
    var log := LogOf(s.tables.attempts, id);
    if id in s.tables.rows && log != [] {
      var last := log[|log| - 1];
      assert last in log;
      if a :| a in log && a.status == Success {
        var i :| 0 <= i < |log| && log[i] == a;
        assert StatusesOf(log)[i] == Success;
        assert StatusesOf(log)[|log| - 1] == last.status;
        assert last.status == Success;
      }
    }
  }

  /**
   When a persist transaction aborts, in any reachable state, and on which constraint. Uniqueness
   of attempt numbers and the retry-state CHECK are never what stops it.
  */
  lemma PersistAbortsIff(b: Backoff, steps: seq<Step>, w: nat, o: Outcome)
    requires CanPersist(b, Run(b, steps), w, o)
    ensures var s := Run(b, steps);
            var id := s.workers[w].id;
            && id in s.tables.rows
            && var r := s.tables.rows[id];
               var result := PersistOf(b, s, w, o);
               && (result.Err? <==> Aborts(r, o.status))
               && (result.Err? ==>
                     && Terminal(r.state)
                     && result == Err(Violates(if r.attemptCount == r.maxAttempts then ChkAttemptBounds else ChkSentAtTimestamp))
                     && Apply(b, s, Persist(w, o)).tables == s.tables)
  {
    var s := Run(b, steps);
    var id := s.workers[w].id;
    LogAndRowAgree(b, steps, id);
    PersistEffect(b, s, id, s.workers[w].snapshot, o, s.workers[w].begun.value);
  }

  /** Neither a claim nor mark_queued ever breaks a CHECK, whenever its transaction began. */
  lemma ClaimAndMarkNeverAbort(b: Backoff, steps: seq<Step>, begun: Time, chosen: set<NotificationId>, id: NotificationId)
    requires chosen <= DueRows(Run(b, steps).tables.rows, begun)
    ensures var s := Run(b, steps);
            && ClaimChecks(s.tables.rows, chosen, begun)
            && (id in s.tables.rows && s.tables.rows[id].state == Created && CanMarkQueued(s, id, begun) ==>
                  RowChecks(MarkedQueued(s.tables.rows[id], begun)))
  {
    forall claimed | claimed in chosen
      ensures RowChecks(ClaimedRow(Run(b, steps).tables.rows[claimed], begun))
    {
      LogAndRowAgree(b, steps, claimed);
    }
    LogAndRowAgree(b, steps, id);
  }

  // ------------------------------------------------------------------- absorbing states

  lemma SentSurvivesPersist(b: Backoff, s: System, w: nat, o: Outcome, id: NotificationId)
    requires RowInv(s, id) && id in s.tables.rows && s.tables.rows[id].state == Sent && CanPersist(b, s, w, o)
    ensures var s' := ApplyPersist(b, s, w, o); id in s'.tables.rows && s'.tables.rows[id].state == Sent
  {
    if s.workers[w].id == id {
      PersistEffect(b, s, id, s.workers[w].snapshot, o, s.workers[w].begun.value);
    } else {
      PersistSparesOthers(b, s, w, o, id);
    }
  }

  lemma SentStaysSentInOneStep(b: Backoff, s: System, step: Step, id: NotificationId)
    requires RowInv(s, id) && id in s.tables.rows && s.tables.rows[id].state == Sent
    ensures var s' := Apply(b, s, step); id in s'.tables.rows && s'.tables.rows[id].state == Sent
  {
    match step {
      case Persist(w, o) =>
        if CanPersist(b, s, w, o) {
          SentSurvivesPersist(b, s, w, o, id);
        }
      case Claim(begun, limit, locked, chosen) =>
        assert id !in DueRows(s.tables.rows, begun);
      case Submit(_, _, _) =>
      case HandlerMarkQueued(_, _) =>
      case _ =>
        QuietStepKeepsRecord(s, step, id);
    }
  }

  lemma {:induction false} SentStaysSentFrom(b: Backoff, s: System, steps: seq<Step>, id: NotificationId)
    requires RowInv(s, id) && id in s.tables.rows && s.tables.rows[id].state == Sent
    ensures var s' := RunFrom(b, s, steps); id in s'.tables.rows && s'.tables.rows[id].state == Sent
    decreases |steps|
  {
    if steps != [] {
      var n := |steps| - 1;
      SentStaysSentFrom(b, s, steps[..n], id);
      RunFromKeepsRowInv(b, s, steps[..n], id);
      SentStaysSentInOneStep(b, RunFrom(b, s, steps[..n]), steps[n], id);
    }
  }

  /** `sent` is absorbing in every interleaving, although neither mark_failed nor schedule_retry guards it. */
  lemma SentIsAbsorbing(b: Backoff, steps: seq<Step>, more: seq<Step>, id: NotificationId)
    requires id in Run(b, steps).tables.rows && Run(b, steps).tables.rows[id].state == Sent
    ensures id in Run(b, steps + more).tables.rows && Run(b, steps + more).tables.rows[id].state == Sent
  {
    LogAndRowAgree(b, steps, id);
    RunConcat(b, INITIAL, steps, more);
    SentStaysSentFrom(b, Run(b, steps), more, id);
  }

  ghost predicate HeldByWorker(s: System, id: NotificationId) {
    exists i :: 0 <= i < |s.workers| && s.workers[i].id == id
  }

  /** No step that can still happen will touch the row of a failed notification. */
  ghost predicate Settled(s: System, id: NotificationId) {
    && id in s.tables.rows && s.tables.rows[id].state == Failed
    && (s.tables.rows[id].attemptCount == s.tables.rows[id].maxAttempts || !HeldByWorker(s, id))
  }

  lemma NotHeldFrame(s: System, s': System, id: NotificationId)
    requires !HeldByWorker(s, id) && NoNewWorker(s, s')
    ensures !HeldByWorker(s', id)
  {
  }

  lemma SettledSurvivesPersist(b: Backoff, s: System, w: nat, o: Outcome, id: NotificationId)
    requires RowInv(s, id) && Settled(s, id) && CanPersist(b, s, w, o)
    ensures var s' := ApplyPersist(b, s, w, o);
            Settled(s', id) && s'.tables.rows[id] == s.tables.rows[id]
  {
    var s' := ApplyPersist(b, s, w, o);
    PersistTakesWorker(b, s, w, o);
    if s.workers[w].id == id {
      assert HeldByWorker(s, id);
      PersistEffect(b, s, id, s.workers[w].snapshot, o, s.workers[w].begun.value);
    }
    PersistSparesOthers(b, s, w, o, id);
    if !HeldByWorker(s, id) {
      NotHeldFrame(s, s', id);
    }
  }

  lemma SettledSurvivesLoad(s: System, taken: NotificationId, id: NotificationId)
    requires Settled(s, id)
    ensures Settled(ApplyLoad(s, taken), id) && ApplyLoad(s, taken).tables == s.tables
  {
  }

  lemma SettledSurvivesWrite(b: Backoff, s: System, step: Step, id: NotificationId)
    requires Settled(s, id) && (step.Submit? || step.HandlerMarkQueued? || step.Claim?)
    ensures var s' := Apply(b, s, step);
            Settled(s', id) && s'.tables.rows[id] == s.tables.rows[id]
  {
    if step.Claim? {
      assert id !in DueRows(s.tables.rows, step.begun);
    }
    assert Apply(b, s, step).workers == s.workers;
  }

  lemma SettledSurvivesBegin(s: System, w: nat, id: NotificationId)
    requires Settled(s, id)
    ensures Settled(ApplyBegin(s, w), id) && ApplyBegin(s, w).tables == s.tables
  {
  }

  lemma SettledStaysInOneStep(b: Backoff, s: System, step: Step, id: NotificationId)
    requires RowInv(s, id) && Settled(s, id)
    ensures var s' := Apply(b, s, step);
            Settled(s', id) && s'.tables.rows[id] == s.tables.rows[id]
  {
    match step {
      case Persist(w, o) =>
        if CanPersist(b, s, w, o) {
          SettledSurvivesPersist(b, s, w, o, id);
        }
      case Load(taken) =>
        SettledSurvivesLoad(s, taken, id);
      case Submit(_, _, _) =>
        SettledSurvivesWrite(b, s, step, id);
      case HandlerMarkQueued(_, _) =>
        SettledSurvivesWrite(b, s, step, id);
      case Claim(_, _, _, _) =>
        SettledSurvivesWrite(b, s, step, id);
      case BeginPersist(w) =>
        SettledSurvivesBegin(s, w, id);
      case _ =>
        QuietStepKeepsRecord(s, step, id);
        if !HeldByWorker(s, id) {
          QuietStepAddsNoWorker(s, step);
          NotHeldFrame(s, Apply(b, s, step), id);
        }
    }
  }

  lemma {:induction false} SettledStaysFrom(b: Backoff, s: System, steps: seq<Step>, id: NotificationId)
    requires RowInv(s, id) && Settled(s, id)
    ensures var s' := RunFrom(b, s, steps); Settled(s', id) && s'.tables.rows[id] == s.tables.rows[id]
    decreases |steps|
  {
    if steps != [] {
      var n := |steps| - 1;
      SettledStaysFrom(b, s, steps[..n], id);
      RunFromKeepsRowInv(b, s, steps[..n], id);
      SettledStaysInOneStep(b, RunFrom(b, s, steps[..n]), steps[n], id);
    }
  }

  /** A worker that still holds a failed notification with an attempt to spare begins its transaction, unless it has, and sends. */
  lemma StaleWorkerSends(b: Backoff, s: System, w: nat, o: Outcome, id: NotificationId)
    requires RowInv(s, id) && w < |s.workers| && s.workers[w].id == id && o == Outcome(Success, "", 0, s.now)
    requires s.tables.rows[id].attemptCount < s.tables.rows[id].maxAttempts
    ensures var s' := Apply(b, Apply(b, s, BeginPersist(w)), Persist(w, o));
            id in s'.tables.rows && s'.tables.rows[id].state == Sent
  {
    var t := ApplyBegin(s, w);
    BeginKeepsRowInv(s, w, id);
    PersistEffect(b, t, id, t.workers[w].snapshot, o, t.workers[w].begun.value);
  }

  /**
   `failed` is absorbing exactly when the attempts are used up or no worker still holds the
   notification: a stale worker with an attempt to spare can always turn it into `sent`.
  */
  lemma FailedIsAbsorbingIff(b: Backoff, steps: seq<Step>, id: NotificationId)
    requires id in Run(b, steps).tables.rows && Run(b, steps).tables.rows[id].state == Failed
    ensures var s := Run(b, steps);
            (forall more: seq<Step> ::
               id in Run(b, steps + more).tables.rows && Run(b, steps + more).tables.rows[id].state == Failed)
            <==>
            (s.tables.rows[id].attemptCount == s.tables.rows[id].maxAttempts || !HeldByWorker(s, id))
  {
    var s := Run(b, steps);
    LogAndRowAgree(b, steps, id);
    if Settled(s, id) {
      forall more: seq<Step>
        ensures id in Run(b, steps + more).tables.rows && Run(b, steps + more).tables.rows[id].state == Failed
      {
        RunConcat(b, INITIAL, steps, more);
        SettledStaysFrom(b, s, more, id);
      }
    } else {
      var w :| 0 <= w < |s.workers| && s.workers[w].id == id;
      var o := Outcome(Success, "", 0, s.now);
      RunFromSnoc(b, INITIAL, steps, BeginPersist(w));
      RunFromSnoc(b, INITIAL, steps + [BeginPersist(w)], Persist(w, o));
      StaleWorkerSends(b, s, w, o, id);
      var more := [BeginPersist(w), Persist(w, o)];
      assert steps + more == steps + [BeginPersist(w)] + [Persist(w, o)];
      assert Run(b, steps + more).tables.rows[id].state == Sent;
    }
  }

  const DUPLICATED := [Submit(0, 5, 0)] + [HandlerEnqueue(0)] + [Duplicate(0)] + [Load(0)] + [Load(0)]

  /** Two workers hold the same notification, both with the row as it was created. */
  function HeldTwice(): System {
    var row := NewRow(5, 0);
    INITIAL.(tables := Tables(map[0 := row], []), toMark := multiset{0}, workers := [Worker(0, row, None), Worker(0, row, None)])
  }

  lemma SubmittedAndQueuedTwice(b: Backoff)
    ensures Apply(b, Apply(b, Apply(b, INITIAL, Submit(0, 5, 0)), HandlerEnqueue(0)), Duplicate(0))
            == HeldTwice().(workers := [], queue := multiset{0, 0})
  {
    var submitted := Apply(b, INITIAL, Submit(0, 5, 0));
    assert submitted == INITIAL.(tables := Tables(map[0 := NewRow(5, 0)], []), toEnqueue := multiset{0});
    var enqueued := Apply(b, submitted, HandlerEnqueue(0));
    assert enqueued == submitted.(toEnqueue := multiset{}, queue := multiset{0}, toMark := multiset{0});
  }

  lemma LoadedTwice(b: Backoff, s: System)
    requires s == HeldTwice().(workers := [], queue := multiset{0, 0})
    ensures Apply(b, Apply(b, s, Load(0)), Load(0)) == HeldTwice()
  {
    var one := Apply(b, s, Load(0));
    assert one == s.(queue := multiset{0}, workers := [Worker(0, NewRow(5, 0), None)]);
  }

  /** One duplicated message gives a notification two workers. */
  lemma HeldTwiceReachable(b: Backoff)
    ensures Run(b, DUPLICATED) == HeldTwice()
  {
    var queued := [Submit(0, 5, 0)] + [HandlerEnqueue(0)] + [Duplicate(0)];
    assert queued == [Submit(0, 5, 0), HandlerEnqueue(0), Duplicate(0)];
    RunThree(b, INITIAL, Submit(0, 5, 0), HandlerEnqueue(0), Duplicate(0));
    SubmittedAndQueuedTwice(b);
    RunFromSnoc(b, INITIAL, queued, Load(0));
    RunFromSnoc(b, INITIAL, queued + [Load(0)], Load(0));
    LoadedTwice(b, Run(b, queued));
  }

  /** The first of two workers fails its notification for good, with attempts left; the second still holds it. */
  lemma FirstWorkerFails(b: Backoff, s: System, id: NotificationId)
    requires RowInv(s, id) && |s.workers| == 2 && s.workers[0].id == id && s.workers[1].id == id
    requires s.workers[0].begun == Some(s.now)
    requires s.tables.rows[id].attemptCount + 1 < s.tables.rows[id].maxAttempts && s.tables.rows[id].state != Sent
    ensures var s' := ApplyPersist(b, s, 0, Outcome(PermanentFailure, "", 0, s.now));
            && id in s'.tables.rows && s'.tables.rows[id].state == Failed
            && s'.tables.rows[id].attemptCount < s'.tables.rows[id].maxAttempts && HeldByWorker(s', id)
  {
    var o := Outcome(PermanentFailure, "", 0, s.now);
    PersistEffect(b, s, id, s.workers[0].snapshot, o, s.now);
    assert CanPersist(b, s, 0, o);
    assert ApplyPersist(b, s, 0, o).workers == [s.workers[1]];
    assert ApplyPersist(b, s, 0, o).workers[0].id == id;
  }

  /** One duplicated message reaches a failed notification with an attempt to spare and a stale worker. */
  lemma FailedStaleWorkerReachable(b: Backoff) returns (before: seq<Step>)
    ensures var s := Run(b, before);
            && 0 in s.tables.rows && s.tables.rows[0].state == Failed
            && s.tables.rows[0].attemptCount < s.tables.rows[0].maxAttempts && HeldByWorker(s, 0)
  {
    HeldTwiceReachable(b);
    before := DUPLICATED + [BeginPersist(0)];
    RunFromSnoc(b, INITIAL, DUPLICATED, BeginPersist(0));
    LogAndRowAgree(b, before, 0);
    FirstWorkerFails(b, Run(b, before), 0);
    RunFromSnoc(b, INITIAL, before, Persist(0, Outcome(PermanentFailure, "", 0, 0)));
    before := before + [Persist(0, Outcome(PermanentFailure, "", 0, 0))];
  }
}
