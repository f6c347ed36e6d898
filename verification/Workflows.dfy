/**
 The API handler, the delivery task and the retry scheduler task as the sequential programs they
 are. Each, run without interruption and with the clock standing still, is proved to be one schedule
 of the protocol's steps; the protocol itself interleaves those steps freely.
*/
module Workflows {
  import opened Prelude
  import opened Notifications
  import opened RetryPolicy
  import opened Delivery
  import opened Claims
  import opened Protocol
  import opened ProtocolSafety
  import opened FakeProvider
  import Submission

  class NotificationQueue {
    var messages: multiset<NotificationId>

    constructor ()
      ensures messages == multiset{}
    {
      messages := multiset{};
    }

    method Enqueue(id: NotificationId)
      modifies this
      ensures messages == old(messages) + multiset{id}
    {
      messages := messages + multiset{id};
    }

    method Take(id: NotificationId)
      requires messages[id] > 0
      modifies this
      ensures messages == old(messages) - multiset{id}
    {
      messages := messages - multiset{id};
    }
  }

  /** `s` is a protocol state with these tables, this queue and this clock reading. */
  ghost predicate Matches(db: Database, q: NotificationQueue, now: Time, s: System)
    reads db, q
  {
    s.tables == db.Contents() && s.queue == q.messages && s.now == now
  }

  /** Nothing is left under way that was not under way before. */
  predicate SameElsewhere(s: System, t: System) {
    t.toEnqueue == s.toEnqueue && t.toMark == s.toMark && t.workers == s.workers && t.claimed == s.claimed
  }

  /** What the handler of a new request does, with the clock standing at `now`. */
  function NewRequest(id: NotificationId, now: Time): seq<Step> {
    [Submit(id, DEFAULT_MAX_ATTEMPTS, now), HandlerEnqueue(id), HandlerMarkQueued(id, now)]
  }

  lemma NewRequestRows(s: System, id: NotificationId)
    requires id !in s.tables.rows
    ensures ApplyMarkQueued(ApplyQuiet(ApplySubmit(s, id, DEFAULT_MAX_ATTEMPTS, s.now), HandlerEnqueue(id)), id, s.now).tables.rows
            == s.tables.rows[id := MarkedQueued(NewRow(DEFAULT_MAX_ATTEMPTS, s.now), s.now)]
  {
    var s1 := ApplySubmit(s, id, DEFAULT_MAX_ATTEMPTS, s.now);
    SubmitStep(s, id);
    EnqueueNewStep(s1, id);
    MarkStep(ApplyQuiet(s1, HandlerEnqueue(id)), id);
  }

  lemma NewRequestRest(s: System, id: NotificationId)
    requires id !in s.tables.rows
    ensures var t := ApplyMarkQueued(ApplyQuiet(ApplySubmit(s, id, DEFAULT_MAX_ATTEMPTS, s.now), HandlerEnqueue(id)), id, s.now);
            t.tables.attempts == s.tables.attempts && t.queue == s.queue + multiset{id} && t.now == s.now && SameElsewhere(s, t)
  {
    var s1 := ApplySubmit(s, id, DEFAULT_MAX_ATTEMPTS, s.now);
    SubmitStep(s, id);
    EnqueueNewStep(s1, id);
    MarkStep(ApplyQuiet(s1, HandlerEnqueue(id)), id);
  }

  lemma ThreeSteps(b: Backoff, s: System, id: NotificationId)
    ensures RunFrom(b, s, NewRequest(id, s.now))
            == ApplyMarkQueued(ApplyQuiet(ApplySubmit(s, id, DEFAULT_MAX_ATTEMPTS, s.now), HandlerEnqueue(id)), id, s.now)
  {
    RunThree(b, s, Submit(id, DEFAULT_MAX_ATTEMPTS, s.now), HandlerEnqueue(id), HandlerMarkQueued(id, s.now));
  }

  lemma SubmitStep(s: System, id: NotificationId)
    requires id !in s.tables.rows
    ensures var t := ApplySubmit(s, id, DEFAULT_MAX_ATTEMPTS, s.now);
            && t.tables.rows == s.tables.rows[id := NewRow(DEFAULT_MAX_ATTEMPTS, s.now)]
            && t.tables.attempts == s.tables.attempts && t.queue == s.queue && t.now == s.now
            && t.toEnqueue == s.toEnqueue + multiset{id}
            && t.toMark == s.toMark && t.workers == s.workers && t.claimed == s.claimed
  {
  }

  lemma EnqueueNewStep(s: System, id: NotificationId)
    requires s.toEnqueue[id] > 0
    ensures var t := ApplyQuiet(s, HandlerEnqueue(id));
            && t.tables == s.tables && t.queue == s.queue + multiset{id} && t.now == s.now
            && t.toEnqueue == s.toEnqueue - multiset{id} && t.toMark == s.toMark + multiset{id}
            && t.workers == s.workers && t.claimed == s.claimed
  {
  }

  lemma MarkStep(s: System, id: NotificationId)
    requires s.toMark[id] > 0 && id in s.tables.rows
    requires s.tables.rows[id].createdAt <= s.now
    requires s.tables.rows[id].state == Created && RowChecks(MarkedQueued(s.tables.rows[id], s.now))
    ensures var t := ApplyMarkQueued(s, id, s.now);
            && t.tables.rows == s.tables.rows[id := MarkedQueued(s.tables.rows[id], s.now)]
            && t.tables.attempts == s.tables.attempts && t.queue == s.queue && t.now == s.now
            && t.toMark == s.toMark - multiset{id}
            && t.toEnqueue == s.toEnqueue && t.workers == s.workers && t.claimed == s.claimed
  {
  }

  lemma NewRequestRuns(b: Backoff, s: System, id: NotificationId)
    requires id !in s.tables.rows
    ensures var t := RunFrom(b, s, NewRequest(id, s.now));
            && t.tables == Tables(s.tables.rows[id := MarkedQueued(NewRow(DEFAULT_MAX_ATTEMPTS, s.now), s.now)], s.tables.attempts)
            && t.queue == s.queue + multiset{id} && t.now == s.now && SameElsewhere(s, t)
  {
    ThreeSteps(b, s, id);
    NewRequestRows(s, id);
    NewRequestRest(s, id);
  }

  /** The handler's part of a new request: the row its transaction inserted, the message, mark_queued. */
  method EnqueueNew(b: Backoff, db: Database, q: NotificationQueue, id: NotificationId, now: Time, ghost s: System)
    requires Matches(db, q, now, s) && id !in db.rows
    modifies db, q
    ensures Matches(db, q, now, RunFrom(b, s, NewRequest(id, now))) && SameElsewhere(s, RunFrom(b, s, NewRequest(id, now)))
    ensures db.rows == old(db.rows)[id := Row(Queued, 0, 5, None, Some(now), None, None, None, now, now)]
    ensures q.messages == old(q.messages) + multiset{id}
  {
    NewRequestRuns(b, s, id);
    var row := db.CreateNotification(id, now);
    q.Enqueue(id);
    var marked := db.MarkQueued(id, now);
    assert db.rows == old(db.rows)[id := MarkedQueued(row, now)];
  }

  /**
   create_notify: submit, and only a new request is enqueued and marked. `accepted` and `db` hold the
   two halves of one notifications table: what was submitted, and how far its delivery is.
  */
  method CreateNotify(b: Backoff, accepted: Submission.SubmissionDatabase, db: Database, q: NotificationQueue,
                      key: Submission.IdemKey, request: Submission.Request, now: Time, ghost calls: seq<Submission.Call>, ghost s: System)
    returns (answer: Result<Submission.Submitted, Submission.SubmissionError>)
    requires Matches(db, q, now, s)
    requires accepted.Contents() == Submission.StoreAfter(calls) && accepted.notifications.Keys == db.rows.Keys
    modifies accepted, db, q
    ensures accepted.Contents() == Submission.StoreAfter(calls + [Submission.Call(key, request)]) && accepted.notifications.Keys == db.rows.Keys
    ensures answer == Submission.Answer(calls + [Submission.Call(key, request)], |calls|)
    ensures if answer.Ok? && answer.value.isNewRequest then
              var id := answer.value.id;
              && id !in old(db.rows)
              && db.rows == old(db.rows)[id := Row(Queued, 0, 5, None, Some(now), None, None, None, now, now)]
              && q.messages == old(q.messages) + multiset{id}
              && Matches(db, q, now, RunFrom(b, s, NewRequest(id, now)))
              && SameElsewhere(s, RunFrom(b, s, NewRequest(id, now)))
            else db.Contents() == old(db.Contents()) && q.messages == old(q.messages)
  {
    ghost var all := calls + [Submission.Call(key, request)];
    assert all[..|calls|] == calls && all[..|calls| + 1] == all;
    Submission.OnlyNewRequestsChangeTables(all, |calls|);
    answer := accepted.SubmitNotification(key, request);
    if answer.Ok? && answer.value.isNewRequest {
      EnqueueNew(b, db, q, answer.value.id, now, s);
    }
  }

  /** The tables after one delivery of a message for `id`: unchanged unless the row is eligible and the persist commits. */
  function Delivered(b: Backoff, t: Tables, id: NotificationId, o: Outcome, now: Time): Tables
    requires id in t.rows ==> JitterDraw(b, t.rows[id].attemptCount + 1, o.draw)
  {
    if id in t.rows && Eligible(t.rows[id]) then
      match PersistTransaction(b, t, id, t.rows[id], o, now) case Ok(after) => after case Err(_) => t
    else t
  }

  /** What the delivery task does: load, begin and persist, as the worker that comes after all others. */
  function DeliveryOf(s: System, id: NotificationId, o: Outcome): seq<Step> {
    [Load(id), BeginPersist(|s.workers|), Persist(|s.workers|, o)]
  }

  lemma LoadStep(s: System, id: NotificationId)
    requires s.queue[id] > 0
    ensures var t := ApplyLoad(s, id);
            && t.tables == s.tables && t.queue == s.queue - multiset{id} && t.now == s.now
            && t.toEnqueue == s.toEnqueue && t.toMark == s.toMark && t.claimed == s.claimed
            && t.workers == s.workers + (if id in s.tables.rows && Eligible(s.tables.rows[id]) then [Worker(id, s.tables.rows[id], None)] else [])
            && (t.workers == s.workers <==>
                  || id !in s.tables.rows
                  || s.tables.rows[id].state == Sent || s.tables.rows[id].state == Failed
                  || s.tables.rows[id].attemptCount >= s.tables.rows[id].maxAttempts)
  {
    assert s.workers + [] == s.workers;
  }

  /** A load and then the persist of the worker it started, if it did start one. */
  lemma PersistLoaded(b: Backoff, s: System, t: System, id: NotificationId, o: Outcome)
    requires t.tables == s.tables && t.now == s.now
    requires id in s.tables.rows ==> JitterDraw(b, s.tables.rows[id].attemptCount + 1, o.draw)
    requires t.workers == s.workers + if id in s.tables.rows && Eligible(s.tables.rows[id]) then [Worker(id, s.tables.rows[id], None)] else []
    requires o.readAt == s.now
    ensures var u := Apply(b, Apply(b, t, BeginPersist(|s.workers|)), Persist(|s.workers|, o));
            && u.tables == Delivered(b, s.tables, id, o, s.now) && u.queue == t.queue && u.now == t.now
            && u.workers == s.workers && u.toEnqueue == t.toEnqueue && u.toMark == t.toMark && u.claimed == t.claimed
  {
    LastWorkerLeaves(b, s.workers, t, id, o);
  }

  /** Whatever becomes of the worker that was added last, the others stay. */
  lemma LastWorkerLeaves(b: Backoff, workers: seq<Worker>, t: System, id: NotificationId, o: Outcome)
    requires t.workers == workers || (exists w :: t.workers == workers + [w] && w.id == id && w.begun.None?)
    requires id in t.tables.rows ==> JitterDraw(b, t.tables.rows[id].attemptCount + 1, o.draw)
    requires o.readAt == t.now
    ensures Apply(b, Apply(b, t, BeginPersist(|workers|)), Persist(|workers|, o)).workers == workers
  {
    if t.workers != workers {
      var w :| t.workers == workers + [w] && w.id == id && w.begun.None?;
      var begun := w.(begun := Some(t.now));
      assert Apply(b, t, BeginPersist(|workers|)).workers == workers + [begun];
      assert Without(workers + [begun], |workers|) == workers;
    }
  }

  lemma DeliverySteps(b: Backoff, s: System, id: NotificationId, o: Outcome)
    requires s.queue[id] > 0
    requires id in s.tables.rows ==> JitterDraw(b, s.tables.rows[id].attemptCount + 1, o.draw)
    requires o.readAt == s.now
    ensures var t := RunFrom(b, s, DeliveryOf(s, id, o));
            && t.tables == Delivered(b, s.tables, id, o, s.now) && t.queue == s.queue - multiset{id} && t.now == s.now
            && SameElsewhere(s, t)
  {
    RunThree(b, s, Load(id), BeginPersist(|s.workers|), Persist(|s.workers|, o));
    LoadStep(s, id);
    PersistLoaded(b, s, ApplyLoad(s, id), id, o);
  }

  /**
   deliver_notification_task: take the message, reload the row, check it, let the provider answer
   `o`, persist. The provider is asked only when the check lets the row pass.
  */
  method DeliverNotification(b: Backoff, db: Database, q: NotificationQueue, id: NotificationId, o: Outcome, now: Time, ghost s: System)
    returns (asked: bool, delivered: bool)
    requires Matches(db, q, now, s) && q.messages[id] > 0
    requires id in db.rows ==> JitterDraw(b, db.rows[id].attemptCount + 1, o.draw)
    requires o.readAt == now
    modifies db, q
    ensures Matches(db, q, now, RunFrom(b, s, DeliveryOf(s, id, o))) && SameElsewhere(s, RunFrom(b, s, DeliveryOf(s, id, o)))
    ensures asked <==> && id in old(db.rows)
                       && old(db.rows)[id].state != Sent && old(db.rows)[id].state != Failed
                       && old(db.rows)[id].attemptCount < old(db.rows)[id].maxAttempts
    ensures if id in old(db.rows) && old(db.rows)[id].state != Sent && old(db.rows)[id].state != Failed
               && old(db.rows)[id].attemptCount < old(db.rows)[id].maxAttempts
            then match PersistTransaction(b, old(db.Contents()), id, old(db.rows)[id], o, now)
                 case Ok(after) => delivered && db.Contents() == after
                 case Err(_) => !delivered && db.Contents() == old(db.Contents())
            else !delivered && db.Contents() == old(db.Contents())
    ensures q.messages == old(q.messages) - multiset{id}
    ensures db.Contents() == Delivered(b, old(db.Contents()), id, o, now)
  {
    DeliverySteps(b, s, id, o);
    q.Take(id);
    var notification := db.GetNotification(id);
    if notification.None? || !Eligible(notification.value) {
      return false, false;
    }
    asked := true;
    var result := PersistDeliveryResult(b, db, id, notification.value, o, now);
    delivered := result.Ok?;
  }

  function Enqueues(order: seq<NotificationId>): seq<Step> {
    seq(|order|, i requires 0 <= i < |order| => SchedulerEnqueue(order[i]))
  }

  lemma EnqueueStep(b: Backoff, t: System, id: NotificationId)
    requires t.claimed[id] > 0
    ensures Apply(b, t, SchedulerEnqueue(id)) == t.(claimed := t.claimed - multiset{id}, queue := t.queue + multiset{id})
  {
  }

  lemma OneMoreEnqueue(b: Backoff, s: System, first: Step, order: seq<NotificationId>, id: NotificationId)
    ensures RunFrom(b, s, [first] + Enqueues(order + [id]))
            == Apply(b, RunFrom(b, s, [first] + Enqueues(order)), SchedulerEnqueue(id))
  {
    var steps := [first] + Enqueues(order);
    assert [first] + Enqueues(order + [id]) == steps + [SchedulerEnqueue(id)];
    RunFromSnoc(b, s, steps, SchedulerEnqueue(id));
  }

  lemma OneLeaves(left: set<NotificationId>, id: NotificationId)
    requires id in left
    ensures multiset(left) == multiset(left - {id}) + multiset{id}
  {
  }

  /** The enqueue loop of retry_scheduler_task; `t` is the protocol state it starts from. */
  method EnqueueAll(b: Backoff, db: Database, q: NotificationQueue, batch: set<NotificationId>, now: Time,
                    ghost s: System, ghost first: Step)
    returns (ghost order: seq<NotificationId>)
    requires Matches(db, q, now, RunFrom(b, s, [first]))
    requires multiset(batch) <= RunFrom(b, s, [first]).claimed
    modifies q
    ensures q.messages == old(q.messages) + multiset(batch) && multiset(order) == multiset(batch)
    ensures Matches(db, q, now, RunFrom(b, s, [first] + Enqueues(order)))
    ensures var t, t' := RunFrom(b, s, [first]), RunFrom(b, s, [first] + Enqueues(order));
            t'.claimed == t.claimed - multiset(batch)
            && t'.toEnqueue == t.toEnqueue && t'.toMark == t.toMark && t'.workers == t.workers
  {
    order := [];
    var left := batch;
    ghost var start := RunFrom(b, s, [first]);
    ghost var t := start;
    assert [first] + Enqueues([]) == [first];
    while left != {}
      invariant multiset(order) + multiset(left) == multiset(batch)
      invariant q.messages + multiset(left) == old(q.messages) + multiset(batch)
      invariant t == RunFrom(b, s, [first] + Enqueues(order))
      invariant Matches(db, q, now, t) && multiset(left) <= t.claimed
      invariant t.claimed == start.claimed - multiset(batch) + multiset(left)
      invariant t.toEnqueue == start.toEnqueue && t.toMark == start.toMark && t.workers == start.workers
      decreases left
    {
      var id :| id in left;
      OneLeaves(left, id);
      OneMoreEnqueue(b, s, first, order, id);
      EnqueueStep(b, t, id);
      q.Enqueue(id);
      t := t.(claimed := t.claimed - multiset{id}, queue := t.queue + multiset{id});
      order := order + [id];
      left := left - {id};
    }
  }

  lemma ClaimFirst(b: Backoff, s: System, limit: nat, locked: set<NotificationId>, chosen: set<NotificationId>)
    requires IsClaim(s.tables.rows, s.now, limit, locked, chosen) && ClaimChecks(s.tables.rows, chosen, s.now)
    ensures var t := RunFrom(b, s, [Claim(s.now, limit, locked, chosen)]);
            && t.tables == Tables(ApplyClaim(s.tables.rows, chosen, s.now), s.tables.attempts)
            && t.queue == s.queue && t.now == s.now && t.claimed == s.claimed + multiset(chosen)
            && t.toEnqueue == s.toEnqueue && t.toMark == s.toMark && t.workers == s.workers
  {
    RunFromSnoc(b, s, [], Claim(s.now, limit, locked, chosen));
    assert [] + [Claim(s.now, limit, locked, chosen)] == [Claim(s.now, limit, locked, chosen)];
  }

  /** retry_scheduler_task: claim a batch, then push its members onto the queue one by one. */
  method RetrySchedulerTask(b: Backoff, db: Database, q: NotificationQueue, limit: nat, locked: set<NotificationId>, now: Time, ghost s: System)
    returns (result: Result<set<NotificationId>, DbError>, ghost order: seq<NotificationId>)
    requires Matches(db, q, now, s)
    modifies db, q
    ensures result.Err? ==>
              && db.Contents() == old(db.Contents()) && q.messages == old(q.messages)
              && exists chosen :: IsClaim(old(db.rows), now, limit, locked, chosen) && !ClaimChecks(old(db.rows), chosen, now)
    ensures result.Ok? ==>
              && IsClaim(old(db.rows), now, limit, locked, result.value)
              && db.rows == ApplyClaim(old(db.rows), result.value, now)
              && db.attempts == old(db.attempts)
              && q.messages == old(q.messages) + multiset(result.value)
              && multiset(order) == multiset(result.value)
              && Matches(db, q, now, RunFrom(b, s, [Claim(now, limit, locked, result.value)] + Enqueues(order)))
              && SameElsewhere(s, RunFrom(b, s, [Claim(now, limit, locked, result.value)] + Enqueues(order)))
  {
    order := [];
    result := ClaimRetryable(db, now, limit, locked);
    if result.Ok? {
      ghost var first := Claim(now, limit, locked, result.value);
      ClaimFirst(b, s, limit, locked, result.value);
      order := EnqueueAll(b, db, q, result.value, now, s, first);
    }
  }

  // ------------------------------------------------------------- one scripted delivery, alone

  ghost function Alone(db: Database, q: NotificationQueue, now: Time): System
    reads db, q
  {
    INITIAL.(now := now, tables := db.Contents(), queue := q.messages)
  }

  /** The claim that follows a scheduled retry takes the only row there is. */
  method ClaimAlone(b: Backoff, db: Database, q: NotificationQueue, id: NotificationId, now: Time)
    requires db.rows.Keys == {id} && Due(db.rows[id], now)
    requires LogAgreesAt(db.Contents(), now, id)
    modifies db, q
    ensures db.rows == map[id := ClaimedRow(old(db.rows)[id], now)] && db.attempts == old(db.attempts)
    ensures q.messages == old(q.messages) + multiset{id}
    ensures LogAgreesAt(db.Contents(), now, id)
  {
    assert DueRows(db.rows, now) - {} == {id};
    ghost var before := db.rows;
    var claim, _ := RetrySchedulerTask(b, db, q, 100, {}, now, Alone(db, q, now));
    if claim.Ok? {
      assert claim.value <= {id} && |claim.value| == 1;
      var claimed :| claimed in claim.value;
      assert claim.value == {claimed};
    }
  }

  /** The row one more attempt with this outcome leaves behind. */
  predicate OneAttemptLater(r: Row, after: Row, status: DeliveryStatus, now: Time) {
    && after.maxAttempts == r.maxAttempts
    && after.attemptCount == r.attemptCount + 1
    && if status == TemporaryFailure && after.attemptCount < after.maxAttempts
       then after.state == Queued && RetryPending(after) && after.nextRetryAt.value >= now
       else !RetryPending(after) && after.state == if status == Success then Sent else Failed
  }

  /** What a delivery makes of a live notification whose log agrees with its row. */
  lemma LiveDelivery(b: Backoff, s: System, id: NotificationId, o: Outcome)
    requires LogAgrees(s, id) && id in s.tables.rows && !Terminal(s.tables.rows[id].state)
    requires JitterDraw(b, s.tables.rows[id].attemptCount + 1, o.draw)
    requires o.readAt == s.now
    ensures var r := s.tables.rows[id];
            var result := PersistTransaction(b, s.tables, id, r, o, s.now);
            && Eligible(r) && result.Ok?
            && LogAgreesAt(result.value, s.now, id)
            && result.value.rows.Keys == s.tables.rows.Keys
            && OneAttemptLater(r, result.value.rows[id], o.status, s.now)
  {
    var r := s.tables.rows[id];
    PersistEffect(b, s, id, r, o, s.now);
    PersistKeepsLog(b, s, id, r, o, s.now);
  }

  /** One delivery of a live notification whose log agrees with its row. */
  method DeliverAlone(b: Backoff, db: Database, q: NotificationQueue, id: NotificationId, status: DeliveryStatus, now: Time)
    requires db.rows.Keys == {id} && q.messages[id] > 0
    requires LogAgreesAt(db.Contents(), now, id) && !Terminal(db.rows[id].state)
    modifies db, q
    ensures db.rows.Keys == {id} && LogAgreesAt(db.Contents(), now, id)
    ensures OneAttemptLater(old(db.rows)[id], db.rows[id], status, now)
  {
    var draw: nat :| draw <= CappedDelay(b, db.rows[id].attemptCount + 1);
    var o := Outcome(status, "", draw, now);
    ghost var s := Alone(db, q, now);
    LiveDelivery(b, s, id, o);
    var _, _ := DeliverNotification(b, db, q, id, o, now, s);
  }

  /** One round: a delivery and, once its retry time has come, the claim that queues it again. */
  method DeliverThenClaim(b: Backoff, db: Database, q: NotificationQueue, id: NotificationId, script: seq<Entry>,
                          status: DeliveryStatus, now: Time) returns (later: Time, finished: bool)
    requires db.rows.Keys == {id} && q.messages[id] > 0
    requires LogAgreesAt(db.Contents(), now, id) && !Terminal(db.rows[id].state)
    requires OnScript(db.rows[id], script, false) && EntryAt(script, db.rows[id].attemptCount) == Reports(status)
    modifies db, q
    ensures db.rows.Keys == {id} && LogAgreesAt(db.Contents(), later, id)
    ensures db.rows[id].maxAttempts == old(db.rows)[id].maxAttempts
    ensures db.rows[id].attemptCount == old(db.rows)[id].attemptCount + 1
    ensures OnScript(db.rows[id], script, finished)
    ensures !finished ==> q.messages[id] > 0
  {
    ghost var r := db.rows[id];
    later := now;
    DeliverAlone(b, db, q, id, status, now);
    StaysOnScript(r, db.rows[id], script, status, now);
    finished := !RetryPending(db.rows[id]);
    if !finished {
      later := db.rows[id].nextRetryAt.value;
      ClaimAlone(b, db, q, id, later);
    }
  }

  /**
   Delivering and claiming in turn, with the fake provider answering, always ends: the measure is
   the attempts left. It ends terminal where the script says, or stranded where the script raises.
  */
  method RunWithFakeProvider(b: Backoff, db: Database, q: NotificationQueue, id: NotificationId, script: seq<Entry>, start: Time)
    returns (finished: bool)
    requires db.rows.Keys == {id} && db.attempts == [] && q.messages[id] > 0
    requires RowChecks(db.rows[id]) && db.rows[id].createdAt <= start
    requires db.rows[id].attemptCount == 0 && Shows(db.rows[id], Fresh)
    modifies db, q
    ensures id in db.rows && db.rows[id].maxAttempts == old(db.rows)[id].maxAttempts
    ensures var r := db.rows[id];
            var j := DecisiveIndex(script);
            && (finished <==> r.state == Sent || r.state == Failed)
            && (finished <==> j >= r.maxAttempts || j == |script| || script[j] != Raises)
            && (finished ==> r.attemptCount == Min(r.maxAttempts, j + 1))
            && (finished ==> (r.state == Sent <==> j < r.maxAttempts && (j == |script| || script[j] == Reports(Success))))
            && (!finished ==> r.attemptCount == j)
  {
    var provider := new Provider();
    var now := start;
    finished := false;
    while !finished
      invariant db.rows.Keys == {id} && db.rows[id].maxAttempts == old(db.rows)[id].maxAttempts
      invariant LogAgreesAt(db.Contents(), now, id)
      invariant OnScript(db.rows[id], script, finished)
      invariant !finished ==> q.messages[id] > 0
      decreases !finished, db.rows[id].maxAttempts - db.rows[id].attemptCount
    {
      var r := db.rows[id];
      provider.Configure(script, r);
      var answer := provider.Send();
      if answer.Err? {
        return;
      }
      now, finished := DeliverThenClaim(b, db, q, id, script, answer.value, now);
    }
  }

  /** Where a run under the script stands: still before the decisive entry, or ended by it or by max_attempts. */
  predicate OnScript(r: Row, script: seq<Entry>, finished: bool) {
    var j := DecisiveIndex(script);
    && finished == Terminal(r.state)
    && 0 <= r.attemptCount
    && if finished then
         && r.attemptCount == Min(r.maxAttempts, j + 1)
         && (r.state == Sent <==> j < r.maxAttempts && (j == |script| || script[j] == Reports(Success)))
         && (j >= r.maxAttempts || j == |script| || script[j] != Raises)
       else r.attemptCount <= j && r.attemptCount < r.maxAttempts
  }

  lemma StaysOnScript(r: Row, after: Row, script: seq<Entry>, status: DeliveryStatus, now: Time)
    requires OnScript(r, script, false) && EntryAt(script, r.attemptCount) == Reports(status)
    requires OneAttemptLater(r, after, status, now)
    ensures OnScript(after, script, !RetryPending(after))
  {
  }
}
