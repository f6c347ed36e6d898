/** The scripted test provider, and where its script takes a notification. */
module FakeProvider {
  import opened Prelude
  import opened Notifications
  import opened RetryPolicy
  import opened Delivery
  import opened Claims
  import opened Protocol
  import opened ProtocolSafety
  import opened Carriers

  /** One entry of metadata.testing.sequence; the timeout, network_error and unknown entries raise. */
  datatype Entry = Reports(status: DeliveryStatus) | Raises

  class Provider {
    var configured: Option<(seq<Entry>, Row)>

    constructor ()
      ensures configured == None
    {
      configured := None;
    }

    method Configure(script: seq<Entry>, notification: Row)
      modifies this
      ensures configured == Some((script, notification))
    {
      configured := Some((script, notification));
    }

    /** An error stands for the exception that leaves `send`, an unconfigured provider's included. */
    method Send() returns (result: Result<DeliveryStatus, ()>)
      requires configured.Some? ==> configured.value.1.attemptCount >= 0
      ensures configured == None ==> result == Err(())
      ensures configured.Some? ==>
                var (script, notification) := configured.value;
                if notification.attemptCount >= |script| then result == Ok(Success)
                else match script[notification.attemptCount]
                  case Reports(status) => result == Ok(status)
                  case Raises => result == Err(())
    {
      if configured == None {
        return Err(());
      }
      var (script, notification) := configured.value;
      var attempt := notification.attemptCount;
      if attempt >= |script| {
        return Ok(Success);
      }
      match script[attempt] {
        case Reports(status) => return Ok(status);
        case Raises => return Err(());
      }
    }
  }

  function EntryAt(script: seq<Entry>, attempt: nat): Entry {
    if attempt >= |script| then Reports(Success) else script[attempt]
  }

  /** The first position of the script that is not a temporary failure; past its end lies success. */
  function DecisiveIndex(script: seq<Entry>): (j: nat)
    ensures j <= |script|
    ensures forall i :: 0 <= i < j ==> script[i] == Reports(TemporaryFailure)
    ensures j < |script| ==> script[j] != Reports(TemporaryFailure)
    ensures EntryAt(script, j) != Reports(TemporaryFailure)
    ensures forall i :: 0 <= i < j ==> EntryAt(script, i) == Reports(TemporaryFailure)
  {
    if script == [] || script[0] != Reports(TemporaryFailure) then 0
    else
      var rest := DecisiveIndex(script[1..]);
      assert forall i :: 0 < i <= rest + 1 ==> EntryAt(script, i) == EntryAt(script[1..], i - 1);
      rest + 1
  }

  // ------------------------------------------------ every interleaving without duplication

  /** Each persist for `id` reports the script's entry for the attempt count its worker loaded. */
  ghost predicate FollowsScript(b: Backoff, steps: seq<Step>, id: NotificationId, script: seq<Entry>) {
    forall i :: 0 <= i < |steps| ==> StepFollowsScript(Run(b, steps[..i]), steps[i], id, script)
  }

  predicate StepFollowsScript(s: System, step: Step, id: NotificationId, script: seq<Entry>) {
    step.Persist? && step.worker < |s.workers| && s.workers[step.worker].id == id
    && s.workers[step.worker].snapshot.attemptCount >= 0 ==>
      EntryAt(script, s.workers[step.worker].snapshot.attemptCount) == Reports(step.outcome.status)
  }

  ghost predicate SnapshotsFresh(s: System, id: NotificationId) {
    forall i :: 0 <= i < |s.workers| && s.workers[i].id == id ==>
                  id in s.tables.rows && s.workers[i].snapshot.attemptCount == s.tables.rows[id].attemptCount
  }

  /** The log so far reads off the script, and only its last entry can be decisive. */
  ghost predicate LogFollowsScript(log: seq<Attempt>, script: seq<Entry>) {
    && (forall i :: 0 <= i < |log| ==> EntryAt(script, i) == Reports(log[i].status))
    && (forall i :: 0 <= i < |log| - 1 ==> log[i].status == TemporaryFailure)
  }

  ghost predicate ScriptInv(s: System, id: NotificationId, script: seq<Entry>) {
    SnapshotsFresh(s, id) && LogFollowsScript(LogOf(s.tables.attempts, id), script)
  }

  lemma ScriptInvFrame(s: System, s': System, id: NotificationId, script: seq<Entry>)
    requires ScriptInv(s, id, script) && NoNewWorker(s, s')
    requires LogOf(s'.tables.attempts, id) == LogOf(s.tables.attempts, id)
    requires id in s.tables.rows ==> id in s'.tables.rows && s'.tables.rows[id].attemptCount == s.tables.rows[id].attemptCount
    ensures ScriptInv(s', id, script)
  {
  }

  /** Another notification's persist leaves this one's log and row alone. */
  lemma OtherPersistFollowsScript(b: Backoff, s: System, w: nat, o: Outcome, id: NotificationId, script: seq<Entry>)
    requires ScriptInv(s, id, script) && CanPersist(b, s, w, o) && s.workers[w].id != id
    ensures ScriptInv(ApplyPersist(b, s, w, o), id, script)
  {
    PersistTakesWorker(b, s, w, o);
    PersistSparesOthers(b, s, w, o, id);
    ScriptInvFrame(s, ApplyPersist(b, s, w, o), id, script);
  }

  lemma ExtendScriptLog(log: seq<Attempt>, a: Attempt, script: seq<Entry>)
    requires LogFollowsScript(log, script) && (log != [] ==> log[|log| - 1].status == TemporaryFailure)
    requires EntryAt(script, |log|) == Reports(a.status)
    ensures LogFollowsScript(log + [a], script)
  {
  }

  lemma OwnPersistExtendsLog(b: Backoff, s: System, w: nat, o: Outcome, id: NotificationId, script: seq<Entry>)
    requires LogAgrees(s, id) && Live(s, id) && LogFollowsScript(LogOf(s.tables.attempts, id), script)
    requires CanPersist(b, s, w, o) && s.workers[w].id == id
    requires EntryAt(script, |LogOf(s.tables.attempts, id)|) == Reports(o.status)
    ensures LogFollowsScript(LogOf(ApplyPersist(b, s, w, o).tables.attempts, id), script)
  {
    PersistAppends(b, s, w, o);
    if PersistOf(b, s, w, o).Ok? {
      var log := LogOf(s.tables.attempts, id);
      var a := Attempt(id, s.tables.rows[id].attemptCount + 1, o.status, o.error);
      LogOfAppend(s.tables.attempts, a, id);
      LiveLogIsTemporary(s, id);
      ExtendScriptLog(log, a, script);
    } else {
      assert s.tables.attempts + [] == s.tables.attempts;
    }
  }

  lemma PersistFollowsScript(b: Backoff, s: System, w: nat, o: Outcome, id: NotificationId, script: seq<Entry>)
    requires RowInv(s, id) && ScriptInv(s, id, script) && CarrierCount(s, id) <= (if Live(s, id) then 1 else 0)
    requires CanPersist(b, s, w, o) && StepFollowsScript(s, Persist(w, o), id, script)
    ensures ScriptInv(ApplyPersist(b, s, w, o), id, script)
  {
    if s.workers[w].id != id {
      OtherPersistFollowsScript(b, s, w, o, id, script);
    } else {
      HeldByWithout(s.workers, w, id);
      OwnPersistExtendsLog(b, s, w, o, id, script);
      var s' := ApplyPersist(b, s, w, o);
      HeldIffCounted(s', id);
      forall i | 0 <= i < |s'.workers|
        ensures s'.workers[i].id != id
      {
        assert !HeldByWorker(s', id);
      }
    }
  }

  lemma LiveLogIsTemporary(s: System, id: NotificationId)
    requires LogAgrees(s, id) && Live(s, id)
    ensures var log := LogOf(s.tables.attempts, id); log != [] ==> log[|log| - 1].status == TemporaryFailure
  {
  }

  lemma LoadFollowsScript(s: System, taken: NotificationId, id: NotificationId, script: seq<Entry>)
    requires ScriptInv(s, id, script)
    ensures ScriptInv(ApplyLoad(s, taken), id, script)
  {
    var s' := ApplyLoad(s, taken);
    assert s'.tables == s.tables;
  }

  lemma BeginFollowsScript(s: System, w: nat, id: NotificationId, script: seq<Entry>)
    requires ScriptInv(s, id, script)
    ensures ScriptInv(ApplyBegin(s, w), id, script)
  {
    assert ApplyBegin(s, w).tables == s.tables;
  }

  lemma ClaimFollowsScript(s: System, begun: Time, limit: nat, locked: set<NotificationId>, chosen: set<NotificationId>,
                           id: NotificationId, script: seq<Entry>)
    requires ScriptInv(s, id, script)
    ensures ScriptInv(ApplyClaimStep(s, begun, limit, locked, chosen), id, script)
  {
    ScriptInvFrame(s, ApplyClaimStep(s, begun, limit, locked, chosen), id, script);
  }

  lemma QuietStepFollowsScript(s: System, step: Step, id: NotificationId, script: seq<Entry>)
    requires ScriptInv(s, id, script) && Quiet(step) && !step.Load? && !step.BeginPersist?
    ensures ScriptInv(ApplyQuiet(s, step), id, script)
  {
    QuietStepKeepsRecord(s, step, id);
    QuietStepAddsNoWorker(s, step);
    ScriptInvFrame(s, ApplyQuiet(s, step), id, script);
  }

  lemma OtherStepFollowsScript(b: Backoff, s: System, step: Step, id: NotificationId, script: seq<Entry>)
    requires ScriptInv(s, id, script) && !step.Persist?
    ensures ScriptInv(Apply(b, s, step), id, script)
  {
    match step {
      case Load(taken) =>
        LoadFollowsScript(s, taken, id, script);
      case BeginPersist(w) =>
        BeginFollowsScript(s, w, id, script);
      case Submit(added, maxAttempts, begun) =>
        ScriptInvFrame(s, ApplySubmit(s, added, maxAttempts, begun), id, script);
      case HandlerMarkQueued(marked, begun) =>
        ScriptInvFrame(s, ApplyMarkQueued(s, marked, begun), id, script);
      case Claim(begun, limit, locked, chosen) =>
        ClaimFollowsScript(s, begun, limit, locked, chosen, id, script);
      case Persist(_, _) =>
      case _ =>
        QuietStepFollowsScript(s, step, id, script);
    }
  }

  lemma StepKeepsScriptInv(b: Backoff, s: System, step: Step, id: NotificationId, script: seq<Entry>)
    requires RowInv(s, id) && ScriptInv(s, id, script) && CarrierCount(s, id) <= (if Live(s, id) then 1 else 0)
    requires StepFollowsScript(s, step, id, script)
    ensures ScriptInv(Apply(b, s, step), id, script)
  {
    match step {
      case Persist(w, o) =>
        if CanPersist(b, s, w, o) {
          PersistFollowsScript(b, s, w, o, id, script);
        }
      case _ =>
        OtherStepFollowsScript(b, s, step, id, script);
    }
  }

  lemma FollowsScriptPrefix(b: Backoff, steps: seq<Step>, n: nat, id: NotificationId, script: seq<Entry>)
    requires FollowsScript(b, steps, id, script) && n <= |steps|
    ensures FollowsScript(b, steps[..n], id, script)
  {
    forall i | 0 <= i < n
      ensures StepFollowsScript(Run(b, steps[..n][..i]), steps[..n][i], id, script)
    {
      assert steps[..n][..i] == steps[..i];
    }
  }

  lemma {:induction false} ScriptInvHolds(b: Backoff, steps: seq<Step>, id: NotificationId, script: seq<Entry>)
    requires NothingDuplicated(steps) && FollowsScript(b, steps, id, script)
    ensures ScriptInv(Run(b, steps), id, script)
    decreases |steps|
  {
    if steps != [] {
      var n := |steps| - 1;
      FollowsScriptPrefix(b, steps, n, id, script);
      ScriptInvHolds(b, steps[..n], id, script);
      NeverCarriedTwice(b, steps[..n], id);
      LogAndRowAgree(b, steps[..n], id);
      StepKeepsScriptInv(b, Run(b, steps[..n]), steps[n], id, script);
    }
  }

  /**
   Whatever the interleaving, short of duplication, a notification that reached a terminal state
   under the fake provider got there as the script says.
  */
  lemma ScriptDecidesOutcome(b: Backoff, steps: seq<Step>, id: NotificationId, script: seq<Entry>)
    requires NothingDuplicated(steps) && FollowsScript(b, steps, id, script)
    requires id in Run(b, steps).tables.rows && Terminal(Run(b, steps).tables.rows[id].state)
    ensures var r := Run(b, steps).tables.rows[id];
            var j := DecisiveIndex(script);
            && r.attemptCount == Min(r.maxAttempts, j + 1)
            && (r.state == Sent <==> j < r.maxAttempts && (j == |script| || script[j] == Reports(Success)))
            && (j < r.maxAttempts && j < |script| ==> script[j] != Raises)
  {
    ScriptInvHolds(b, steps, id, script);
    LogAndRowAgree(b, steps, id);
    var s := Run(b, steps);
    TerminalLogDecides(LogOf(s.tables.attempts, id), s.tables.rows[id], script);
  }

  lemma TerminalLogDecides(log: seq<Attempt>, r: Row, script: seq<Entry>)
    requires LogFollowsScript(log, script) && |log| == r.attemptCount && RowChecks(r)
    requires Terminal(r.state) && Shows(r, Replay(StatusesOf(log), r.maxAttempts))
    ensures var j := DecisiveIndex(script);
            && r.attemptCount == Min(r.maxAttempts, j + 1)
            && (r.state == Sent <==> j < r.maxAttempts && EntryAt(script, j) == Reports(Success))
            && (j < r.maxAttempts ==> EntryAt(script, j) != Raises)
  {
    var n := |log|;
    assert n > 0 && StatusesOf(log)[n - 1] == log[n - 1].status;
    assert EntryAt(script, n - 1) == Reports(log[n - 1].status);
    assert forall i :: 0 <= i < n - 1 ==> EntryAt(script, i) == Reports(TemporaryFailure);
    TemporaryUpTo(script, n - 1);
  }

  /** After `n` temporary failures the decisive entry is this one or lies further on. */
  lemma TemporaryUpTo(script: seq<Entry>, n: nat)
    requires forall i :: 0 <= i < n ==> EntryAt(script, i) == Reports(TemporaryFailure)
    ensures DecisiveIndex(script) >= n
    ensures EntryAt(script, n) != Reports(TemporaryFailure) ==> DecisiveIndex(script) == n
    ensures EntryAt(script, n) == Reports(TemporaryFailure) ==> DecisiveIndex(script) > n
  {
    assert DecisiveIndex(script) < n ==> EntryAt(script, DecisiveIndex(script)) == Reports(TemporaryFailure);
  }
}
