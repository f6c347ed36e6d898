/**
 Who will deliver a notification next. A carrier is a handler that has not enqueued yet, a queue
 message, a worker, a pending retry time, or a scheduler that has not enqueued its claim yet.
*/
module Carriers {
  import opened Prelude
  import opened Notifications
  import opened RetryPolicy
  import opened Delivery
  import opened Claims
  import opened Protocol
  import opened ProtocolSafety

  function HeldBy(workers: seq<Worker>, id: NotificationId): nat {
    if workers == [] then 0
    else HeldBy(workers[..|workers| - 1], id) + if workers[|workers| - 1].id == id then 1 else 0
  }

  function PendingRetries(s: System, id: NotificationId): nat {
    if id in s.tables.rows && RetryPending(s.tables.rows[id]) then 1 else 0
  }

  function CarrierCount(s: System, id: NotificationId): nat {
    s.toEnqueue[id] + s.queue[id] + HeldBy(s.workers, id) + s.claimed[id] + PendingRetries(s, id)
  }

  predicate Live(s: System, id: NotificationId) {
    id in s.tables.rows && !Terminal(s.tables.rows[id].state)
  }

  predicate Loses(step: Step) {
    step.LoseMessage? || step.CrashHandler? || step.CrashWorker? || step.CrashScheduler?
  }

  predicate NothingLost(steps: seq<Step>) {
    forall i :: 0 <= i < |steps| ==> !Loses(steps[i])
  }

  predicate NothingDuplicated(steps: seq<Step>) {
    forall i :: 0 <= i < |steps| ==> !steps[i].Duplicate?
  }

  // ------------------------------------------------------------------- counting workers

  lemma HeldByAppend(workers: seq<Worker>, w: Worker, id: NotificationId)
    ensures HeldBy(workers + [w], id) == HeldBy(workers, id) + if w.id == id then 1 else 0
  {
    assert (workers + [w])[..|workers|] == workers;
  }

  lemma {:induction false} HeldByWithout(workers: seq<Worker>, w: nat, id: NotificationId)
    requires w < |workers|
    ensures HeldBy(workers, id) == HeldBy(Without(workers, w), id) + if workers[w].id == id then 1 else 0
    decreases |workers|
  {
    var n := |workers| - 1;
    if w == n {
      assert Without(workers, w) == workers[..n];
    } else {
      HeldByWithout(workers[..n], w, id);
      assert Without(workers, w) == Without(workers[..n], w) + [workers[n]];
      HeldByAppend(Without(workers[..n], w), workers[n], id);
    }
  }

  lemma {:induction false} HeldIffCounted(s: System, id: NotificationId)
    ensures HeldByWorker(s, id) <==> HeldBy(s.workers, id) > 0
    decreases |s.workers|
  {
    var n := |s.workers| - 1;
    if n >= 0 {
      var fewer := s.(workers := s.workers[..n]);
      HeldIffCounted(fewer, id);
      if HeldByWorker(fewer, id) {
        var i :| 0 <= i < n && fewer.workers[i].id == id;
        assert s.workers[i].id == id;
      }
      if HeldByWorker(s, id) && s.workers[n].id != id {
        var i :| 0 <= i < |s.workers| && s.workers[i].id == id;
        assert fewer.workers[i].id == id;
      }
    }
  }

  // -------------------------------------------------------------------- one step at a time

  /** What a step does to the carriers of a notification, for the steps that move a worker. */
  lemma PersistMovesCarrier(b: Backoff, s: System, w: nat, o: Outcome, id: NotificationId)
    requires RowInv(s, id) && CanPersist(b, s, w, o)
    ensures var s' := ApplyPersist(b, s, w, o);
            if s.workers[w].id != id then CarrierCount(s', id) == CarrierCount(s, id) && Live(s', id) == Live(s, id)
            else
              && CarrierCount(s', id) == CarrierCount(s, id) - 1 - PendingRetries(s, id) + PendingRetries(s', id)
              && PendingRetries(s', id) == (if Live(s', id) then 1 else 0)
  {
    HeldByWithout(s.workers, w, id);
    PersistTakesWorker(b, s, w, o);
    if s.workers[w].id == id {
      PersistEffect(b, s, id, s.workers[w].snapshot, o, s.workers[w].begun.value);
    } else {
      PersistSparesOthers(b, s, w, o, id);
    }
  }

  lemma LoadMovesCarrier(s: System, id: NotificationId, other: NotificationId)
    requires RowInv(s, other)
    ensures var s' := ApplyLoad(s, id);
            && s'.tables == s.tables
            && CarrierCount(s', other) == CarrierCount(s, other) - (if s.queue[id] > 0 && id == other && !Live(s, id) then 1 else 0)
  {
    if s.queue[id] > 0 && id in s.tables.rows && Eligible(s.tables.rows[id]) {
      HeldByAppend(s.workers, Worker(id, s.tables.rows[id], None), other);
    }
  }

  lemma {:induction false} HeldByRenewed(workers: seq<Worker>, w: nat, held: Worker, id: NotificationId)
    requires w < |workers| && held.id == workers[w].id
    ensures HeldBy(workers[w := held], id) == HeldBy(workers, id)
  {
    var n := |workers| - 1;
    if w < n {
      assert workers[w := held][..n] == workers[..n][w := held];
      HeldByRenewed(workers[..n], w, held, id);
    } else {
      assert workers[w := held][..n] == workers[..n];
    }
  }

  lemma BeginMovesNoCarrier(s: System, w: nat, id: NotificationId)
    ensures var s' := ApplyBegin(s, w);
            CarrierCount(s', id) == CarrierCount(s, id) && Live(s', id) == Live(s, id)
  {
    if w < |s.workers| {
      HeldByRenewed(s.workers, w, s.workers[w].(begun := Some(s.now)), id);
    }
  }

  lemma ClaimedRowMovesCarrier(rows: map<NotificationId, Row>, now: Time, chosen: set<NotificationId>, id: NotificationId)
    requires chosen <= DueRows(rows, now)
    ensures var after := ApplyClaim(rows, chosen, now);
            && (id in after <==> id in rows)
            && (id in rows ==>
                  && (Terminal(after[id].state) <==> Terminal(rows[id].state))
                  && (RetryPending(after[id]) <==> RetryPending(rows[id]) && id !in chosen))
            && (id in chosen ==> id in rows && RetryPending(rows[id]))
  {
  }

  lemma ClaimMovesCarrier(s: System, begun: Time, limit: nat, locked: set<NotificationId>, chosen: set<NotificationId>, id: NotificationId)
    ensures var s' := ApplyClaimStep(s, begun, limit, locked, chosen);
            CarrierCount(s', id) == CarrierCount(s, id) && Live(s', id) == Live(s, id)
  {
    if begun <= s.now && IsClaim(s.tables.rows, begun, limit, locked, chosen) && ClaimChecks(s.tables.rows, chosen, begun) {
      ClaimedRowMovesCarrier(s.tables.rows, begun, chosen, id);
      var s' := ApplyClaimStep(s, begun, limit, locked, chosen);
      assert s'.tables.rows == ApplyClaim(s.tables.rows, chosen, begun);
      assert s'.claimed[id] == s.claimed[id] + if id in chosen then 1 else 0;
    }
  }

  lemma SubmitMovesCarrier(s: System, added: NotificationId, maxAttempts: int, begun: Time, id: NotificationId)
    requires NothingDangles(s, id)
    ensures var s' := ApplySubmit(s, added, maxAttempts, begun);
            if Live(s', id) && !Live(s, id) then CarrierCount(s', id) == HeldBy(s.workers, id) + 1
            else CarrierCount(s', id) == CarrierCount(s, id) && Live(s', id) == Live(s, id)
  {
  }

  lemma MarkQueuedMovesNoCarrier(s: System, marked: NotificationId, begun: Time, id: NotificationId)
    ensures var s' := ApplyMarkQueued(s, marked, begun);
            CarrierCount(s', id) == CarrierCount(s, id) && Live(s', id) == Live(s, id)
  {
  }

  lemma NoWorkerWithoutRow(s: System, id: NotificationId)
    requires WorkersAgree(s, id) && id !in s.tables.rows
    ensures HeldBy(s.workers, id) == 0
  {
    HeldIffCounted(s, id);
  }

  /** Enqueueing hands the carrier on. */
  lemma EnqueueMovesCarrier(s: System, step: Step, id: NotificationId)
    requires step.HandlerEnqueue? || step.SchedulerEnqueue?
    ensures var s' := ApplyQuiet(s, step);
            Live(s', id) == Live(s, id) && CarrierCount(s', id) == CarrierCount(s, id)
  {
  }

  lemma DuplicateAddsCarrier(s: System, step: Step, id: NotificationId)
    requires step.Tick? || step.Duplicate?
    ensures var s' := ApplyQuiet(s, step);
            && Live(s', id) == Live(s, id)
            && CarrierCount(s', id) >= CarrierCount(s, id)
            && (step.Tick? ==> CarrierCount(s', id) == CarrierCount(s, id))
  {
  }

  lemma LossDropsCarrier(s: System, step: Step, id: NotificationId)
    requires step.LoseMessage? || step.CrashHandler? || step.CrashScheduler?
    ensures var s' := ApplyQuiet(s, step);
            Live(s', id) == Live(s, id) && CarrierCount(s', id) <= CarrierCount(s, id)
  {
  }

  /** Without losses a live notification keeps a carrier; without duplication it gets no second one. */
  predicate KeepsCarriers(s: System, s': System, step: Step, id: NotificationId) {
    && (!Loses(step) && (Live(s, id) ==> CarrierCount(s, id) >= 1) ==> (Live(s', id) ==> CarrierCount(s', id) >= 1))
    && (!step.Duplicate? && CarrierCount(s, id) <= (if Live(s, id) then 1 else 0) ==>
          CarrierCount(s', id) <= (if Live(s', id) then 1 else 0))
  }

  lemma SubmitKeepsCarriers(s: System, step: Step, id: NotificationId)
    requires step.Submit? && NothingDangles(s, id) && WorkersAgree(s, id)
    ensures KeepsCarriers(s, ApplySubmit(s, step.id, step.maxAttempts, step.begun), step, id)
  {
    SubmitMovesCarrier(s, step.id, step.maxAttempts, step.begun, id);
    if id !in s.tables.rows {
      NoWorkerWithoutRow(s, id);
    }
  }

  lemma PersistKeepsCarriers(b: Backoff, s: System, step: Step, id: NotificationId)
    requires step.Persist? && RowInv(s, id)
    ensures KeepsCarriers(s, ApplyPersist(b, s, step.worker, step.outcome), step, id)
  {
    if CanPersist(b, s, step.worker, step.outcome) {
      PersistMovesCarrier(b, s, step.worker, step.outcome, id);
      HeldByWithout(s.workers, step.worker, id);
    }
  }

  lemma QuietStepKeepsCarriers(s: System, step: Step, id: NotificationId)
    requires Quiet(step) && RowInv(s, id)
    ensures KeepsCarriers(s, ApplyQuiet(s, step), step, id)
  {
    match step {
      case Load(taken) =>
        LoadMovesCarrier(s, taken, id);
      case BeginPersist(w) =>
        BeginMovesNoCarrier(s, w, id);
      case CrashWorker(w) =>
        if w < |s.workers| {
          HeldByWithout(s.workers, w, id);
        }
      case HandlerEnqueue(_) =>
        EnqueueMovesCarrier(s, step, id);
      case SchedulerEnqueue(_) =>
        EnqueueMovesCarrier(s, step, id);
      case Tick(_) =>
        DuplicateAddsCarrier(s, step, id);
      case Duplicate(_) =>
        DuplicateAddsCarrier(s, step, id);
      case _ =>
        LossDropsCarrier(s, step, id);
    }
  }

  /** What any step does to the carriers of one notification. */
  lemma StepMovesCarrier(b: Backoff, s: System, step: Step, id: NotificationId)
    requires RowInv(s, id)
    ensures KeepsCarriers(s, Apply(b, s, step), step, id)
  {
    match step {
      case Persist(_, _) => PersistKeepsCarriers(b, s, step, id);
      case Submit(_, _, _) => SubmitKeepsCarriers(s, step, id);
      case Claim(begun, limit, locked, chosen) => ClaimMovesCarrier(s, begun, limit, locked, chosen, id);
      case HandlerMarkQueued(marked, begun) => MarkQueuedMovesNoCarrier(s, marked, begun, id);
      case _ => QuietStepKeepsCarriers(s, step, id);
    }
  }

  // ----------------------------------------------------------------------- over whole runs

  /** With nothing lost, every notification that is not terminal still has a carrier. */
  lemma {:induction false} NeverStranded(b: Backoff, steps: seq<Step>, id: NotificationId)
    requires NothingLost(steps)
    ensures Live(Run(b, steps), id) ==> CarrierCount(Run(b, steps), id) >= 1
    decreases |steps|
  {
    if steps != [] {
      var n := |steps| - 1;
      NeverStranded(b, steps[..n], id);
      LogAndRowAgree(b, steps[..n], id);
      StepMovesCarrier(b, Run(b, steps[..n]), steps[n], id);
    }
  }

  /** With nothing duplicated, at most one carrier while live and none once terminal. */
  lemma {:induction false} NeverCarriedTwice(b: Backoff, steps: seq<Step>, id: NotificationId)
    requires NothingDuplicated(steps)
    ensures CarrierCount(Run(b, steps), id) <= (if Live(Run(b, steps), id) then 1 else 0)
    decreases |steps|
  {
    if steps != [] {
      var n := |steps| - 1;
      NeverCarriedTwice(b, steps[..n], id);
      LogAndRowAgree(b, steps[..n], id);
      StepMovesCarrier(b, Run(b, steps[..n]), steps[n], id);
    }
  }

  /** Token conservation: with neither, exactly one carrier until terminal and none after. */
  lemma ExactlyOneCarrier(b: Backoff, steps: seq<Step>, id: NotificationId)
    requires NothingLost(steps) && NothingDuplicated(steps)
    ensures CarrierCount(Run(b, steps), id) == (if Live(Run(b, steps), id) then 1 else 0)
  {
    NeverStranded(b, steps, id);
    NeverCarriedTwice(b, steps, id);
  }

  /** With nothing duplicated, every message a worker takes passes the eligibility check. */
  lemma NoMessageIsRejected(b: Backoff, steps: seq<Step>, id: NotificationId)
    requires NothingDuplicated(steps) && Run(b, steps).queue[id] > 0
    ensures && id in Run(b, steps).tables.rows
            && var r := Run(b, steps).tables.rows[id];
               && Eligible(r)
               && r.state != Sent && r.state != Failed && r.attemptCount < r.maxAttempts
  {
    NeverCarriedTwice(b, steps, id);
    LogAndRowAgree(b, steps, id);
  }

  /** With nothing duplicated, every persist transaction commits. */
  lemma NoPersistAborts(b: Backoff, steps: seq<Step>, w: nat, o: Outcome)
    requires NothingDuplicated(steps) && CanPersist(b, Run(b, steps), w, o)
    ensures PersistOf(b, Run(b, steps), w, o).Ok?
  {
    var s := Run(b, steps);
    NeverCarriedTwice(b, steps, s.workers[w].id);
    HeldByWithout(s.workers, w, s.workers[w].id);
    PersistAbortsIff(b, steps, w, o);
    LogAndRowAgree(b, steps, s.workers[w].id);
  }

  lemma UncarriedRowIsUntouched(b: Backoff, s: System, step: Step, id: NotificationId)
    requires id in s.tables.rows && Terminal(s.tables.rows[id].state) && CarrierCount(s, id) == 0
    ensures var s' := Apply(b, s, step); id in s'.tables.rows && s'.tables.rows[id] == s.tables.rows[id]
  {
    match step {
      case Persist(w, o) =>
        if CanPersist(b, s, w, o) {
          HeldByWithout(s.workers, w, id);
          PersistSparesOthers(b, s, w, o, id);
        }
      case Claim(begun, _, _, _) =>
        assert id !in DueRows(s.tables.rows, begun);
      case Submit(_, _, _) =>
      case HandlerMarkQueued(_, _) =>
      case _ =>
        QuietStepKeepsRecord(s, step, id);
    }
  }

  /** With nothing duplicated, both terminal states are final: the row never changes again. */
  lemma {:induction false} TerminalIsFinal(b: Backoff, steps: seq<Step>, more: seq<Step>, id: NotificationId)
    requires NothingDuplicated(steps + more)
    requires id in Run(b, steps).tables.rows && Terminal(Run(b, steps).tables.rows[id].state)
    ensures id in Run(b, steps + more).tables.rows
    ensures Run(b, steps + more).tables.rows[id] == Run(b, steps).tables.rows[id]
    decreases |more|
  {
    if more == [] {
      assert steps + more == steps;
    } else {
      var n := |more| - 1;
      var before := steps + more[..n];
      assert steps + more == before + [more[n]];
      assert forall i :: 0 <= i < |before| ==> before[i] == (steps + more)[i];
      TerminalIsFinal(b, steps, more[..n], id);
      NeverCarriedTwice(b, before, id);
      UncarriedRowIsUntouched(b, Run(b, before), more[n], id);
      RunFromSnoc(b, INITIAL, before, more[n]);
    }
  }
}
