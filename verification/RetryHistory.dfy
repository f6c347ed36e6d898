/**
 What the retries of one notification can cost over a whole run: how often it is claimed, and how
 long it can be made to wait.
*/
module RetryHistory {
  import opened Prelude
  import opened Notifications
  import opened RetryPolicy
  import opened Delivery
  import opened Claims
  import opened Protocol
  import opened ProtocolSafety
  import opened Carriers

  function ClaimCount(h: seq<Event>): nat {
    if h == [] then 0
    else ClaimCount(h[..|h| - 1]) + if h[|h| - 1].Claimed? then 1 else 0
  }

  function ClaimIndices(h: seq<Event>): set<int> {
    set k | 0 <= k < |h| && h[k].Claimed?
  }

  lemma {:induction false} ClaimCountIs(h: seq<Event>)
    ensures ClaimCount(h) == |set k | 0 <= k < |h| && h[k].Claimed?|
    decreases |h|
  {
    if h != [] {
      var n := |h| - 1;
      ClaimCountIs(h[..n]);
      assert ClaimIndices(h) == ClaimIndices(h[..n]) + if h[n].Claimed? then {n} else {};
    }
  }

  /** Temporary failures numbered below max_attempts: the attempts that earn a retry. */
  function RetryableFailures(statuses: seq<DeliveryStatus>, maxAttempts: int): nat {
    if statuses == [] then 0
    else RetryableFailures(statuses[..|statuses| - 1], maxAttempts)
         + if statuses[|statuses| - 1] == TemporaryFailure && |statuses| < maxAttempts then 1 else 0
  }

  /** The seconds of delay drawn so far. */
  function DelayDrawn(h: seq<Event>): nat {
    if h == [] then 0
    else DelayDrawn(h[..|h| - 1]) + match h[|h| - 1] case RetryScheduled(_, delay, _) => delay case Claimed(_) => 0
  }

  /** A claim takes the retry scheduled just before it, and not before that retry's delay is over. */
  predicate Takes(claim: Event, retry: Event) {
    claim.Claimed? && retry.RetryScheduled? && claim.begun >= retry.readAt + retry.delay * SECOND
  }

  /** Every claim directly follows the scheduling of the retry it takes. */
  predicate ClaimsFollowRetries(h: seq<Event>) {
    h == [] || (ClaimsFollowRetries(h[..|h| - 1]) && (h[|h| - 1].Claimed? ==> |h| >= 2 && Takes(h[|h| - 1], h[|h| - 2])))
  }

  /** Hence between any two claims a retry was scheduled. */
  lemma {:induction false} ClaimsAreSeparated(h: seq<Event>, i: nat, j: nat)
    requires ClaimsFollowRetries(h)
    requires i < j < |h| && h[i].Claimed? && h[j].Claimed?
    ensures exists k :: i < k < j && h[k].RetryScheduled?
    decreases |h|
  {
    if j == |h| - 1 {
      assert h[j - 1].RetryScheduled?;
    } else {
      var before := h[..|h| - 1];
      ClaimsAreSeparated(before, i, j);
      var k :| i < k < j && before[k].RetryScheduled?;
      assert h[k].RetryScheduled?;
    }
  }

  /** How many of the attempts made so far could have been followed by a delay. */
  function DelayableAttempts(r: Row): nat {
    var n := Min(r.attemptCount, r.maxAttempts - 1);
    if n < 0 then 0 else n
  }

  /** The retry the row waits for, as it was scheduled. */
  predicate IsPending(e: Event, r: Row) {
    e.RetryScheduled? && e.number == r.attemptCount && r.nextRetryAt == Some(e.readAt + e.delay * SECOND)
  }

  /** Retries were scheduled by ever later attempts below the maximum, each with a delay within its attempt's cap. */
  ghost predicate SchedulesFit(b: Backoff, h: seq<Event>, r: Row) {
    && (forall k :: 0 <= k < |h| && h[k].RetryScheduled? ==>
          && 1 <= h[k].number <= r.attemptCount && h[k].number < r.maxAttempts
          && h[k].delay <= CappedDelay(b, h[k].number))
    && (forall j, k :: 0 <= j < k < |h| && h[j].RetryScheduled? && h[k].RetryScheduled? ==> h[j].number < h[k].number)
  }

  /** A history that the row and the statuses logged for it account for. */
  ghost predicate HistoryFits(b: Backoff, h: seq<Event>, statuses: seq<DeliveryStatus>, r: Row) {
    && ClaimCount(h) + (if RetryPending(r) then 1 else 0) <= RetryableFailures(statuses, r.maxAttempts)
    && (RetryPending(r) ==> h != [] && IsPending(h[|h| - 1], r))
    && ClaimsFollowRetries(h)
    && DelayDrawn(h) <= TotalDelay(b, DelayableAttempts(r))
    && SchedulesFit(b, h, r)
  }

  ghost predicate HistoryInv(b: Backoff, s: System, id: NotificationId) {
    id in s.tables.rows ==>
      HistoryFits(b, HistoryOf(s, id), StatusesOf(LogOf(s.tables.attempts, id)), s.tables.rows[id])
  }

  lemma {:induction false} RetryableFailuresBound(statuses: seq<DeliveryStatus>, maxAttempts: int)
    requires maxAttempts > 0
    ensures RetryableFailures(statuses, maxAttempts) <= |statuses|
    ensures RetryableFailures(statuses, maxAttempts) <= maxAttempts - 1
  {
    if statuses != [] {
      RetryableFailuresBound(statuses[..|statuses| - 1], maxAttempts);
    }
  }

  lemma AppendEvent(h: seq<Event>, e: Event)
    requires ClaimsFollowRetries(h)
    requires e.Claimed? ==> h != [] && Takes(e, h[|h| - 1])
    ensures ClaimsFollowRetries(h + [e])
    ensures ClaimCount(h + [e]) == ClaimCount(h) + if e.Claimed? then 1 else 0
    ensures DelayDrawn(h + [e]) == DelayDrawn(h) + match e case RetryScheduled(_, delay, _) => delay case Claimed(_) => 0
  {
    assert (h + [e])[..|h|] == h;
  }

  lemma TotalDelayGrows(b: Backoff, m: nat, n: nat)
    requires m <= n
    ensures TotalDelay(b, m) <= TotalDelay(b, n)
  {
  }

  /** One more attempt: a retry is scheduled after a temporary failure below the maximum, and only then. */
  lemma AttemptFits(b: Backoff, h: seq<Event>, statuses: seq<DeliveryStatus>, r: Row, after: Row, status: DeliveryStatus,
                    draw: nat, readAt: Time, h': seq<Event>, statuses': seq<DeliveryStatus>)
    requires HistoryFits(b, h, statuses, r) && |statuses| == r.attemptCount < r.maxAttempts
    requires after.attemptCount == r.attemptCount + 1 && after.maxAttempts == r.maxAttempts
    requires RetryPending(after) <==> status == TemporaryFailure && after.attemptCount < after.maxAttempts
    requires RetryPending(after) ==> after.nextRetryAt == Some(readAt + draw * SECOND)
    requires draw <= CappedDelay(b, r.attemptCount + 1)
    requires h' == if RetryPending(after) then h + [RetryScheduled(after.attemptCount, draw, readAt)] else h
    requires statuses' == statuses + [status]
    ensures HistoryFits(b, h', statuses', after)
  {
    assert (statuses + [status])[..|statuses|] == statuses;
    TotalDelayGrows(b, DelayableAttempts(r), DelayableAttempts(after));
    if RetryPending(after) {
      AppendEvent(h, RetryScheduled(after.attemptCount, draw, readAt));
    }
  }

  /** What a committed persist adds to the log and the history of its notification. */
  lemma PersistRecords(b: Backoff, s: System, w: nat, o: Outcome, id: NotificationId)
    requires RowInv(s, id) && CanPersist(b, s, w, o)
    requires s.workers[w].id == id && PersistOf(b, s, w, o).Ok?
    ensures var s' := ApplyPersist(b, s, w, o);
            var r, after := s.tables.rows[id], PersistOf(b, s, w, o).value.rows[id];
            && id in s'.tables.rows && s'.tables.rows[id] == after && r.attemptCount < r.maxAttempts
            && after.attemptCount == r.attemptCount + 1 && after.maxAttempts == r.maxAttempts
            && (RetryPending(after) <==> o.status == TemporaryFailure && after.attemptCount < after.maxAttempts)
            && (RetryPending(after) ==> after.nextRetryAt == Some(o.readAt + o.draw * SECOND))
            && StatusesOf(LogOf(s'.tables.attempts, id)) == StatusesOf(LogOf(s.tables.attempts, id)) + [o.status]
            && HistoryOf(s', id)
               == if RetryPending(after) then HistoryOf(s, id) + [RetryScheduled(after.attemptCount, o.draw, o.readAt)]
                  else HistoryOf(s, id)
  {
    var a := Attempt(id, s.tables.rows[id].attemptCount + 1, o.status, o.error);
    PersistEffect(b, s, id, s.workers[w].snapshot, o, s.workers[w].begun.value);
    LogOfAppend(s.tables.attempts, a, id);
    ReplayAppend(LogOf(s.tables.attempts, id), a);
  }

  /** A committed persist of this very notification. */
  lemma PersistKeepsHistoryInv(b: Backoff, s: System, w: nat, o: Outcome, id: NotificationId)
    requires RowInv(s, id) && HistoryInv(b, s, id) && CanPersist(b, s, w, o)
    requires s.workers[w].id == id && PersistOf(b, s, w, o).Ok?
    ensures HistoryInv(b, ApplyPersist(b, s, w, o), id)
  {
    var r := s.tables.rows[id];
    var log := LogOf(s.tables.attempts, id);
    PersistRecords(b, s, w, o, id);
    var s' := ApplyPersist(b, s, w, o);
    AttemptFits(b, HistoryOf(s, id), StatusesOf(log), r, s'.tables.rows[id], o.status, o.draw, o.readAt,
                HistoryOf(s', id), StatusesOf(LogOf(s'.tables.attempts, id)));
  }

  lemma ClaimFits(b: Backoff, h: seq<Event>, statuses: seq<DeliveryStatus>, r: Row, now: Time)
    requires HistoryFits(b, h, statuses, r) && RetryPending(r) && r.nextRetryAt.value <= now
    ensures HistoryFits(b, h + [Event.Claimed(now)], statuses, ClaimedRow(r, now))
  {
    AppendEvent(h, Event.Claimed(now));
  }

  /** What a claim does to one notification: nothing, or one more claim and no retry time left. */
  lemma ClaimEffect(s: System, begun: Time, limit: nat, locked: set<NotificationId>, chosen: set<NotificationId>, id: NotificationId)
    requires id in s.tables.rows
    ensures var s' := ApplyClaimStep(s, begun, limit, locked, chosen);
            && s'.tables.attempts == s.tables.attempts
            && id in s'.tables.rows
            && s'.now == s.now
            && (|| (s'.tables.rows[id] == s.tables.rows[id] && HistoryOf(s', id) == HistoryOf(s, id))
                || (&& begun <= s.now && Due(s.tables.rows[id], begun)
                    && s'.tables.rows[id] == ClaimedRow(s.tables.rows[id], begun)
                    && HistoryOf(s', id) == HistoryOf(s, id) + [Event.Claimed(begun)]))
  {
    if id in chosen && IsClaim(s.tables.rows, begun, limit, locked, chosen) {
      assert id in DueRows(s.tables.rows, begun);
    }
  }

  lemma ClaimKeepsHistoryInv(b: Backoff, s: System, begun: Time, limit: nat, locked: set<NotificationId>,
                             chosen: set<NotificationId>, id: NotificationId)
    requires HistoryInv(b, s, id) && id in s.tables.rows
    ensures HistoryInv(b, ApplyClaimStep(s, begun, limit, locked, chosen), id)
  {
    ClaimEffect(s, begun, limit, locked, chosen, id);
    if Due(s.tables.rows[id], begun) {
      ClaimFits(b, HistoryOf(s, id), StatusesOf(LogOf(s.tables.attempts, id)), s.tables.rows[id], begun);
    }
  }

  /** What the invariant of `id` looks at is the same in both states. */
  predicate SameRetryRecord(s: System, s': System, id: NotificationId) {
    && id in s.tables.rows && id in s'.tables.rows
    && (var r, r' := s.tables.rows[id], s'.tables.rows[id];
        r'.attemptCount == r.attemptCount && r'.maxAttempts == r.maxAttempts && r'.nextRetryAt == r.nextRetryAt)
    && LogOf(s'.tables.attempts, id) == LogOf(s.tables.attempts, id)
    && HistoryOf(s', id) == HistoryOf(s, id)
  }

  lemma HistoryInvFrame(b: Backoff, s: System, s': System, id: NotificationId)
    requires HistoryInv(b, s, id) && SameRetryRecord(s, s', id)
    ensures HistoryInv(b, s', id)
  {
  }

  lemma SameRecordSameRetries(s: System, s': System, id: NotificationId)
    requires SameRecord(s, s', id) && id in s.tables.rows
    ensures SameRetryRecord(s, s', id)
  {
  }

  lemma MarkQueuedFrame(s: System, marked: NotificationId, begun: Time, id: NotificationId)
    requires id in s.tables.rows
    ensures SameRetryRecord(s, ApplyMarkQueued(s, marked, begun), id)
  {
  }

  lemma SubmitFrame(s: System, added: NotificationId, maxAttempts: int, begun: Time, id: NotificationId)
    ensures var s' := ApplySubmit(s, added, maxAttempts, begun);
            if id in s.tables.rows then SameRetryRecord(s, s', id)
            else id in s'.tables.rows ==>
                   && s'.tables.rows[id] == NewRow(s'.tables.rows[id].maxAttempts, begun)
                   && (id !in s.history ==> id !in s'.history)
  {
  }

  lemma NewRowHistoryInv(b: Backoff, s: System, begun: Time, id: NotificationId)
    requires id in s.tables.rows && s.tables.rows[id] == NewRow(s.tables.rows[id].maxAttempts, begun)
    requires id !in s.history
    ensures HistoryInv(b, s, id)
  {
  }

  lemma PersistStepKeepsHistoryInv(b: Backoff, s: System, w: nat, o: Outcome, id: NotificationId)
    requires RowInv(s, id) && HistoryInv(b, s, id)
    ensures HistoryInv(b, ApplyPersist(b, s, w, o), id)
  {
    if !CanPersist(b, s, w, o) {
    } else if s.workers[w].id == id && PersistOf(b, s, w, o).Ok? {
      PersistKeepsHistoryInv(b, s, w, o, id);
    } else {
      PersistSparesOthers(b, s, w, o, id);
      if id in s.tables.rows {
        SameRecordSameRetries(s, ApplyPersist(b, s, w, o), id);
        HistoryInvFrame(b, s, ApplyPersist(b, s, w, o), id);
      }
    }
  }

  lemma SubmitStepKeepsHistoryInv(b: Backoff, s: System, added: NotificationId, maxAttempts: int, begun: Time, id: NotificationId)
    requires NothingDangles(s, id) && HistoryInv(b, s, id)
    ensures HistoryInv(b, ApplySubmit(s, added, maxAttempts, begun), id)
  {
    var s' := ApplySubmit(s, added, maxAttempts, begun);
    SubmitFrame(s, added, maxAttempts, begun, id);
    if id in s.tables.rows {
      HistoryInvFrame(b, s, s', id);
    } else if id in s'.tables.rows {
      NewRowHistoryInv(b, s', begun, id);
    }
  }

  lemma QuietStepKeepsHistoryInv(b: Backoff, s: System, step: Step, id: NotificationId)
    requires Quiet(step) && HistoryInv(b, s, id)
    ensures HistoryInv(b, ApplyQuiet(s, step), id)
  {
    QuietStepKeepsRecord(s, step, id);
    if id in s.tables.rows {
      SameRecordSameRetries(s, ApplyQuiet(s, step), id);
      HistoryInvFrame(b, s, ApplyQuiet(s, step), id);
    }
  }

  lemma StepKeepsHistoryInv(b: Backoff, s: System, step: Step, id: NotificationId)
    requires RowInv(s, id) && HistoryInv(b, s, id)
    ensures HistoryInv(b, Apply(b, s, step), id)
  {
    match step {
      case Claim(begun, limit, locked, chosen) =>
        if id in s.tables.rows {
          ClaimKeepsHistoryInv(b, s, begun, limit, locked, chosen, id);
        }
      case Persist(w, o) => PersistStepKeepsHistoryInv(b, s, w, o, id);
      case Submit(added, maxAttempts, begun) => SubmitStepKeepsHistoryInv(b, s, added, maxAttempts, begun, id);
      case HandlerMarkQueued(marked, begun) =>
        if id in s.tables.rows {
          MarkQueuedFrame(s, marked, begun, id);
          HistoryInvFrame(b, s, ApplyMarkQueued(s, marked, begun), id);
        }
      case _ => QuietStepKeepsHistoryInv(b, s, step, id);
    }
  }

  lemma {:induction false} HistoryInvHolds(b: Backoff, steps: seq<Step>, id: NotificationId)
    ensures HistoryInv(b, Run(b, steps), id)
    decreases |steps|
  {
    if steps != [] {
      var n := |steps| - 1;
      HistoryInvHolds(b, steps[..n], id);
      LogAndRowAgree(b, steps[..n], id);
      StepKeepsHistoryInv(b, Run(b, steps[..n]), steps[n], id);
    }
  }

  /**
   Claim accounting, over any run: the claims of a notification, plus one while a retry is
   pending, never exceed its retryable failures, hence never max_attempts - 1; and no two claims
   take it without a retry scheduled in between.
  */
  lemma ClaimsAreBounded(b: Backoff, steps: seq<Step>, id: NotificationId)
    requires id in Run(b, steps).tables.rows
    ensures var s := Run(b, steps);
            var r := s.tables.rows[id];
            var h := HistoryOf(s, id);
            && ClaimCount(h) == |set k | 0 <= k < |h| && h[k].Claimed?|
            && ClaimCount(h) + (if r.nextRetryAt.Some? then 1 else 0)
               <= RetryableFailures(StatusesOf(LogOf(s.tables.attempts, id)), r.maxAttempts)
               <= r.maxAttempts - 1
            && forall i, j :: 0 <= i < j < |h| && h[i].Claimed? && h[j].Claimed? ==>
                 exists k :: i < k < j && h[k].RetryScheduled?
  {
    HistoryInvHolds(b, steps, id);
    LogAndRowAgree(b, steps, id);
    var s := Run(b, steps);
    RetryableFailuresBound(StatusesOf(LogOf(s.tables.attempts, id)), s.tables.rows[id].maxAttempts);
    var h := HistoryOf(s, id);
    ClaimCountIs(h);
    forall i, j | 0 <= i < j < |h| && h[i].Claimed? && h[j].Claimed?
      ensures exists k :: i < k < j && h[k].RetryScheduled?
    {
      ClaimsAreSeparated(h, i, j);
    }
  }

  /**
   In any run, the retries of a notification were scheduled by distinct attempts, in order, all below
   max_attempts, and each waits at most base * 2^(n-1) seconds, and at most the cap, for its attempt n.
  */
  lemma SchedulesAreDistinct(b: Backoff, steps: seq<Step>, id: NotificationId)
    requires id in Run(b, steps).tables.rows
    ensures var r := Run(b, steps).tables.rows[id];
            var h := HistoryOf(Run(b, steps), id);
            && (forall k :: 0 <= k < |h| && h[k].RetryScheduled? ==>
                  && 1 <= h[k].number < r.maxAttempts
                  && h[k].delay <= b.base * Pow2(h[k].number - 1) && h[k].delay <= b.cap)
            && (forall j, k :: 0 <= j < k < |h| && h[j].RetryScheduled? && h[k].RetryScheduled? ==> h[j].number < h[k].number)
  {
    HistoryInvHolds(b, steps, id);
  }

  /**
   All the delays one notification can draw, in any run, add up to at most the capped delays of
   attempts 1..max_attempts-1, which has a closed form.
  */
  lemma TotalWaitIsBounded(b: Backoff, steps: seq<Step>, id: NotificationId) returns (k: nat)
    requires id in Run(b, steps).tables.rows
    ensures var n := Run(b, steps).tables.rows[id].maxAttempts - 1;
            && n >= 0 && Saturates(b, n, k)
            && DelayDrawn(HistoryOf(Run(b, steps), id)) <= TotalDelay(b, n)
            && TotalDelay(b, n) == b.base * (Pow2(k) - 1) + (n - k) * b.cap
  {
    HistoryInvHolds(b, steps, id);
    LogAndRowAgree(b, steps, id);
    var r := Run(b, steps).tables.rows[id];
    k := SaturationIndexExists(b, r.maxAttempts - 1);
    TotalDelayClosedForm(b, r.maxAttempts - 1, k);
    TotalDelayGrows(b, DelayableAttempts(r), r.maxAttempts - 1);
  }

  // ------------------------------------------------------------------ a delay is waited for

  lemma {:induction false} ClaimTakesRetry(h: seq<Event>, k: nat)
    requires ClaimsFollowRetries(h) && k < |h| && h[k].Claimed?
    ensures k > 0 && Takes(h[k], h[k - 1])
    decreases |h|
  {
    if k < |h| - 1 {
      ClaimTakesRetry(h[..|h| - 1], k);
    }
  }

  /**
   In every run, no claim of a notification begins before the clock reading of the attempt that
   scheduled it plus the delay that attempt drew.
  */
  lemma DelaysAreWaitedFor(b: Backoff, steps: seq<Step>, id: NotificationId)
    requires id in Run(b, steps).tables.rows
    ensures var h := HistoryOf(Run(b, steps), id);
            forall k :: 0 <= k < |h| && h[k].Claimed? ==>
                          && k > 0 && h[k - 1].RetryScheduled?
                          && h[k].begun >= h[k - 1].readAt + h[k - 1].delay * 1000000
  {
    HistoryInvHolds(b, steps, id);
    var h := HistoryOf(Run(b, steps), id);
    forall k | 0 <= k < |h| && h[k].Claimed?
      ensures k > 0 && Takes(h[k], h[k - 1])
    {
      ClaimTakesRetry(h, k);
    }
  }

  /** What a step may write over a row that is there. */
  lemma WritesOf(b: Backoff, s: System, step: Step, id: NotificationId)
    requires RowInv(s, id) && id in s.tables.rows
    ensures var s' := Apply(b, s, step);
            && id in s'.tables.rows
            && (s'.tables.rows[id] != s.tables.rows[id] ==>
                  || step.Claim?
                  || step.Persist?
                  || (step.HandlerMarkQueued? && s'.tables.rows[id] == MarkedQueued(s.tables.rows[id], step.begun)
                      && s.tables.rows[id].state == Created))
  {
    match step {
      case Persist(w, o) =>
        if CanPersist(b, s, w, o) && PersistOf(b, s, w, o).Ok? {
          PersistShape(b, s, w, o);
        }
      case Claim(begun, limit, locked, chosen) => ClaimEffect(s, begun, limit, locked, chosen, id);
      case Submit(_, _, _) =>
      case HandlerMarkQueued(_, _) =>
      case _ => QuietStepKeepsRecord(s, step, id);
    }
  }

  lemma PersistNeverProcesses(b: Backoff, s: System, w: nat, o: Outcome, id: NotificationId)
    requires RowInv(s, id) && id in s.tables.rows
    ensures var s' := ApplyPersist(b, s, w, o);
            && id in s'.tables.rows
            && (s'.tables.rows[id] != s.tables.rows[id] ==>
                  && CanPersist(b, s, w, o) && s.workers[w].id == id
                  && s'.tables.rows[id].state != Processing
                  && (s'.tables.rows[id].nextRetryAt.Some? ==>
                        && o.status == TemporaryFailure
                        && s'.tables.rows[id].nextRetryAt.value == o.readAt + o.draw * SECOND
                        && HistoryOf(s', id)
                           == HistoryOf(s, id) + [RetryScheduled(s'.tables.rows[id].attemptCount, o.draw, o.readAt)]))
  {
    if CanPersist(b, s, w, o) {
      if s.workers[w].id == id && PersistOf(b, s, w, o).Ok? {
        PersistEffect(b, s, id, s.workers[w].snapshot, o, s.workers[w].begun.value);
        ReplayAppend(LogOf(s.tables.attempts, id), Attempt(id, 0, o.status, ""));
      } else {
        PersistSparesOthers(b, s, w, o, id);
      }
    }
  }

  /**
   From any reachable state, a step turns a row to `processing` only as a claim of a queued row whose
   retry time has passed when the claim's transaction began, and writes nothing else to it.
  */
  lemma ProcessingOnlyWhenDue(b: Backoff, steps: seq<Step>, step: Step, id: NotificationId)
    requires id in Run(b, steps).tables.rows
    ensures var s, s' := Run(b, steps), Run(b, steps + [step]);
            && id in s'.tables.rows
            && var r, r' := s.tables.rows[id], s'.tables.rows[id];
               r' != r && r'.state == Processing ==>
                 && step.Claim?
                 && r.state == Queued && r.nextRetryAt.Some? && r.nextRetryAt.value <= step.begun <= s.now
                 && r' == r.(state := Processing, nextRetryAt := None, updatedAt := step.begun)
                 && HistoryOf(s', id) == HistoryOf(s, id) + [Event.Claimed(step.begun)]
  {
    var s := Run(b, steps);
    LogAndRowAgree(b, steps, id);
    RunFromSnoc(b, INITIAL, steps, step);
    WritesOf(b, s, step, id);
    if step.Claim? {
      ClaimEffect(s, step.begun, step.limit, step.locked, step.chosen, id);
    } else if step.Persist? {
      PersistNeverProcesses(b, s, step.worker, step.outcome, id);
    }
  }

  /**
   And a claim that takes anything, with room in its limit, leaves behind only rows that are locked, not
   queued, without a retry time, or to be retried after its transaction began.
  */
  lemma ClaimLeavesOnlyWaitingRows(b: Backoff, steps: seq<Step>, step: Step, id: NotificationId)
    requires step.Claim? && Run(b, steps + [step]).tables != Run(b, steps).tables && |step.chosen| < step.limit
    requires id in Run(b, steps).tables.rows && id !in step.chosen
    ensures var r := Run(b, steps).tables.rows[id];
            id in step.locked || r.state != Queued || r.nextRetryAt.None? || r.nextRetryAt.value > step.begun
  {
    var s := Run(b, steps);
    RunFromSnoc(b, INITIAL, steps, step);
    ClaimTakesDueRows(s.tables.rows, step.begun, step.limit, step.locked, step.chosen);
  }

  /**
   From any reachable state, a step leaves a retry time it did not find only by committing a temporary
   failure, and that time is the clock reading of the attempt plus the seconds it drew.
  */
  lemma RetryOnlyAsDrawn(b: Backoff, steps: seq<Step>, step: Step, id: NotificationId)
    requires id in Run(b, steps).tables.rows
    ensures var s, s' := Run(b, steps), Run(b, steps + [step]);
            && id in s'.tables.rows
            && var r, r' := s.tables.rows[id], s'.tables.rows[id];
               r' != r && r'.nextRetryAt.Some? ==>
                 && step.Persist? && step.outcome.status == TemporaryFailure
                 && r'.nextRetryAt.value == step.outcome.readAt + step.outcome.draw * 1000000
                 && HistoryOf(s', id)
                    == HistoryOf(s, id) + [RetryScheduled(r'.attemptCount, step.outcome.draw, step.outcome.readAt)]
  {
    var s := Run(b, steps);
    LogAndRowAgree(b, steps, id);
    RunFromSnoc(b, INITIAL, steps, step);
    WritesOf(b, s, step, id);
    if step.Claim? {
      ClaimEffect(s, step.begun, step.limit, step.locked, step.chosen, id);
    } else if step.Persist? {
      PersistNeverProcesses(b, s, step.worker, step.outcome, id);
    }
  }
}
