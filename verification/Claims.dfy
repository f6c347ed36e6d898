/**
 claim_retryable_notifications: which rows one claim takes, the statement in place, and how
 repeated claims drain the rows that are due.
*/
module Claims {
  import opened Prelude
  import opened Notifications

  /** ORDER BY next_retry_at ASC, created_at ASC, strictly. */
  predicate Precedes(a: Row, b: Row)
    requires a.nextRetryAt.Some? && b.nextRetryAt.Some?
  {
    || a.nextRetryAt.value < b.nextRetryAt.value
    || (a.nextRetryAt.value == b.nextRetryAt.value && a.createdAt < b.createdAt)
  }

  function DueRows(rows: map<NotificationId, Row>, now: Time): set<NotificationId> {
    set id | id in rows && Due(rows[id], now)
  }

  /**
   What SELECT .. ORDER BY .. LIMIT .. FOR UPDATE SKIP LOCKED may return: SQL leaves the order
   of ties open, so this is a relation.
  */
  ghost predicate IsClaim(rows: map<NotificationId, Row>, now: Time, limit: nat, locked: set<NotificationId>,
                          chosen: set<NotificationId>) {
    var candidates := DueRows(rows, now) - locked;
    && chosen <= candidates
    && |chosen| == Min(limit, |candidates|)
    && forall left, taken | left in candidates - chosen && taken in chosen :: !Precedes(rows[left], rows[taken])
  }

  function ApplyClaim(rows: map<NotificationId, Row>, chosen: set<NotificationId>, now: Time): map<NotificationId, Row> {
    map id | id in rows :: if id in chosen then ClaimedRow(rows[id], now) else rows[id]
  }

  /** Every CHECK holds of every row the claim writes. */
  predicate ClaimChecks(rows: map<NotificationId, Row>, chosen: set<NotificationId>, now: Time) {
    forall id | id in chosen && id in rows :: RowChecks(ClaimedRow(rows[id], now))
  }

  // ------------------------------------------------------------------ the statement in place

  /** A first candidate in claim order. */
  method SelectFirst(db: Database, candidates: set<NotificationId>) returns (first: NotificationId)
    requires candidates != {}
    requires forall c | c in candidates :: c in db.rows && db.rows[c].nextRetryAt.Some?
    ensures first in candidates
    ensures forall c | c in candidates :: !Precedes(db.rows[c], db.rows[first])
  {
    first :| first in candidates;
    var rest := candidates - {first};
    while rest != {}
      invariant rest <= candidates && first in candidates - rest
      invariant forall c | c in candidates - rest :: !Precedes(db.rows[c], db.rows[first])
      decreases rest
    {
      var c :| c in rest;
      rest := rest - {c};
      if Precedes(db.rows[c], db.rows[first]) {
        first := c;
      }
    }
  }

  method Select(db: Database, now: Time, limit: nat, locked: set<NotificationId>) returns (chosen: set<NotificationId>)
    ensures IsClaim(db.rows, now, limit, locked, chosen)
  {
    var candidates := DueRows(db.rows, now) - locked;
    var left := candidates;
    chosen := {};
    while |chosen| < limit && left != {}
      invariant chosen <= candidates && left == candidates - chosen
      invariant |chosen| <= limit && |candidates| == |chosen| + |left|
      invariant forall l, t | l in left && t in chosen :: !Precedes(db.rows[l], db.rows[t])
      decreases left
    {
      var first := SelectFirst(db, left);
      chosen, left := chosen + {first}, left - {first};
    }
  }

  /** A claim, read off the rows: which it takes, and why each row it leaves is left. */
  lemma ClaimTakesDueRows(rows: map<NotificationId, Row>, now: Time, limit: nat, locked: set<NotificationId>, chosen: set<NotificationId>)
    requires IsClaim(rows, now, limit, locked, chosen)
    ensures |chosen| <= limit
    ensures forall id | id in chosen ::
              && id in rows && id !in locked && rows[id].state == Queued
              && rows[id].nextRetryAt.Some? && rows[id].nextRetryAt.value <= now
    ensures forall id | id in rows && id !in chosen ::
              || id in locked || rows[id].state != Queued
              || rows[id].nextRetryAt.None? || rows[id].nextRetryAt.value > now
              || (&& |chosen| == limit
                  && forall taken | taken in chosen ::
                       || rows[taken].nextRetryAt.value < rows[id].nextRetryAt.value
                       || (rows[taken].nextRetryAt == rows[id].nextRetryAt && rows[taken].createdAt <= rows[id].createdAt))
  {
    var candidates := DueRows(rows, now) - locked;
    if |chosen| < limit {
      FullSubset(chosen, candidates);
    }
  }

  lemma FullSubset(a: set<NotificationId>, b: set<NotificationId>)
    requires a <= b && |a| == |b|
    ensures a == b
  {
    assert |b - a| == |b| - |a|;
  }

  /** One claim: select, lock and update a batch, or abort when a CHECK fails. */
  method ClaimRetryable(db: Database, now: Time, limit: nat, locked: set<NotificationId>)
    returns (result: Result<set<NotificationId>, DbError>)
    modifies db
    ensures db.attempts == old(db.attempts)
    ensures result.Ok? ==>
              && IsClaim(old(db.rows), now, limit, locked, result.value)
              && ClaimChecks(old(db.rows), result.value, now)
              && db.rows == ApplyClaim(old(db.rows), result.value, now)
    // only queued, unlocked rows whose retry time has passed, and no more than the limit
    ensures result.Ok? ==>
              && |result.value| <= limit
              && forall id | id in result.value ::
                   && id in old(db.rows) && id !in locked
                   && old(db.rows)[id].state == Queued
                   && old(db.rows)[id].nextRetryAt.Some? && old(db.rows)[id].nextRetryAt.value <= now
    // a row left behind with room to spare could not be taken; without room, no taken row comes after it
    ensures result.Ok? ==>
              forall id | id in old(db.rows) && id !in result.value ::
                || id in locked || old(db.rows)[id].state != Queued
                || old(db.rows)[id].nextRetryAt.None? || old(db.rows)[id].nextRetryAt.value > now
                || (&& |result.value| == limit
                    && forall taken | taken in result.value ::
                         var first, second := old(db.rows)[taken], old(db.rows)[id];
                         || first.nextRetryAt.value < second.nextRetryAt.value
                         || (first.nextRetryAt == second.nextRetryAt && first.createdAt <= second.createdAt))
    // taken rows are processing without a retry time; everything else is as it was
    ensures result.Ok? ==>
              && db.rows.Keys == old(db.rows).Keys
              && forall id | id in db.rows ::
                   db.rows[id] == if id in result.value
                                  then old(db.rows)[id].(state := Processing, nextRetryAt := None, updatedAt := now)
                                  else old(db.rows)[id]
    ensures result.Err? ==>
              && db.rows == old(db.rows)
              && exists chosen :: IsClaim(old(db.rows), now, limit, locked, chosen) && !ClaimChecks(old(db.rows), chosen, now)
  {
    var chosen := Select(db, now, limit, locked);
    ClaimTakesDueRows(db.rows, now, limit, locked, chosen);
    if id :| id in chosen && !RowChecks(ClaimedRow(db.rows[id], now)) {
      return Err(Violates(Violation(ClaimedRow(db.rows[id], now)).value));
    }
    db.rows := ApplyClaim(db.rows, chosen, now);
    result := Ok(chosen);
  }

  // ----------------------------------------------------------------------------- draining

  /** `batches` are the non-empty claims of one run of claims that ends when nothing is due. */
  ghost predicate Drains(rows: map<NotificationId, Row>, now: Time, limit: nat, batches: seq<set<NotificationId>>) {
    if batches == [] then DueRows(rows, now) == {}
    else
      && batches[0] != {}
      && IsClaim(rows, now, limit, {}, batches[0])
      && Drains(ApplyClaim(rows, batches[0], now), now, limit, batches[1..])
  }

  function AfterClaims(rows: map<NotificationId, Row>, now: Time, batches: seq<set<NotificationId>>): map<NotificationId, Row> {
    if batches == [] then rows else AfterClaims(ApplyClaim(rows, batches[0], now), now, batches[1..])
  }

  function Union(batches: seq<set<NotificationId>>): set<NotificationId> {
    if batches == [] then {} else batches[0] + Union(batches[1..])
  }

  lemma ClaimRemovesFromDue(rows: map<NotificationId, Row>, now: Time, chosen: set<NotificationId>)
    requires chosen <= DueRows(rows, now)
    ensures DueRows(ApplyClaim(rows, chosen, now), now) == DueRows(rows, now) - chosen
  {
  }

  lemma {:induction false} InUnion(batches: seq<set<NotificationId>>, i: nat)
    requires i < |batches|
    ensures batches[i] <= Union(batches)
  {
    if i > 0 {
      InUnion(batches[1..], i - 1);
    }
  }

  lemma FirstRound(rows: map<NotificationId, Row>, now: Time, limit: nat, batches: seq<set<NotificationId>>)
    requires Drains(rows, now, limit, batches) && batches != []
    ensures var rows' := ApplyClaim(rows, batches[0], now);
            var due := DueRows(rows, now);
            && batches[0] <= due && |batches[0]| == Min(limit, |due|) > 0
            && DueRows(rows', now) == due - batches[0]
            && |DueRows(rows', now)| == |due| - |batches[0]|
            && Drains(rows', now, limit, batches[1..])
            && forall l, t | l in due - batches[0] && t in batches[0] :: !Precedes(rows[l], rows[t])
  {
    assert DueRows(rows, now) - {} == DueRows(rows, now);
    ClaimRemovesFromDue(rows, now, batches[0]);
  }

  lemma {:induction false} DrainCovers(rows: map<NotificationId, Row>, now: Time, limit: nat, batches: seq<set<NotificationId>>)
    requires Drains(rows, now, limit, batches)
    ensures Union(batches) == DueRows(rows, now)
    decreases |batches|
  {
    if batches != [] {
      FirstRound(rows, now, limit, batches);
      DrainCovers(ApplyClaim(rows, batches[0], now), now, limit, batches[1..]);
    }
  }

  lemma ApplyClaimTwice(rows: map<NotificationId, Row>, first: set<NotificationId>, second: set<NotificationId>, now: Time)
    ensures ApplyClaim(ApplyClaim(rows, first, now), second, now) == ApplyClaim(rows, first + second, now)
  {
  }

  lemma {:induction false} AfterClaimsAtOnce(rows: map<NotificationId, Row>, now: Time, batches: seq<set<NotificationId>>)
    ensures AfterClaims(rows, now, batches) == ApplyClaim(rows, Union(batches), now)
    decreases |batches|
  {
    if batches == [] {
      assert ApplyClaim(rows, {}, now) == rows;
    } else {
      AfterClaimsAtOnce(ApplyClaim(rows, batches[0], now), now, batches[1..]);
      ApplyClaimTwice(rows, batches[0], Union(batches[1..]), now);
    }
  }

  /** `rounds` is ceil(n / limit). */
  predicate IsCeiling(rounds: nat, n: nat, limit: nat) {
    n <= rounds * limit < n + limit
  }

  lemma OneMoreRound(rounds: nat, n: nat, limit: nat)
    requires limit > 0 && n > 0
    requires IsCeiling(rounds, n - Min(limit, n), limit)
    ensures IsCeiling(rounds + 1, n, limit)
  {
    assert (rounds + 1) * limit == rounds * limit + limit;
    if n <= limit {
      assert rounds * limit < limit;
    }
  }

  lemma {:induction false} DrainRounds(rows: map<NotificationId, Row>, now: Time, limit: nat, batches: seq<set<NotificationId>>)
    requires Drains(rows, now, limit, batches) && limit > 0
    ensures IsCeiling(|batches|, |DueRows(rows, now)|, limit)
    decreases |batches|
  {
    if batches == [] {
      assert DueRows(rows, now) == {};
    } else {
      FirstRound(rows, now, limit, batches);
      var rest := batches[1..];
      DrainRounds(ApplyClaim(rows, batches[0], now), now, limit, rest);
      OneMoreRound(|rest|, |DueRows(rows, now)|, limit);
      assert |batches| == |rest| + 1;
    }
  }

  /**
   Repeating a claim at a fixed time takes every due row, in ceil(n / limit) non-empty rounds, and
   changes no other row.
  */
  lemma DrainTakesEachDueRow(rows: map<NotificationId, Row>, now: Time, limit: nat, batches: seq<set<NotificationId>>)
    requires Drains(rows, now, limit, batches)
    ensures var due := set id | id in rows && rows[id].state == Queued && rows[id].nextRetryAt.Some?
                                && rows[id].nextRetryAt.value <= now;
            && Union(batches) == due
            && AfterClaims(rows, now, batches)
               == (map id | id in rows ::
                     if id in due then rows[id].(state := Processing, nextRetryAt := None, updatedAt := now) else rows[id])
            && (limit > 0 ==> |batches| * limit < |due| + limit && |due| <= |batches| * limit)
  {
    DrainCovers(rows, now, limit, batches);
    AfterClaimsAtOnce(rows, now, batches);
    DueRowsAre(rows, now);
    ClaimWrites(rows, Union(batches), now);
    if limit > 0 {
      DrainRounds(rows, now, limit, batches);
    }
  }

  lemma ClaimWrites(rows: map<NotificationId, Row>, chosen: set<NotificationId>, now: Time)
    ensures ApplyClaim(rows, chosen, now)
            == map id | id in rows ::
                 if id in chosen then rows[id].(state := Processing, nextRetryAt := None, updatedAt := now) else rows[id]
  {
  }

  lemma ClaimsCheck(rows: map<NotificationId, Row>, now: Time)
    requires forall id | id in rows :: RowChecks(rows[id]) && rows[id].createdAt <= now
    ensures forall chosen | chosen <= DueRows(rows, now) :: ClaimChecks(rows, chosen, now)
  {
  }

  lemma OneClaimLess(rows: map<NotificationId, Row>, now: Time, limit: nat, chosen: set<NotificationId>)
    requires IsClaim(rows, now, limit, {}, chosen) && limit > 0
    ensures chosen == {} <==> DueRows(rows, now) == {}
    ensures |DueRows(ApplyClaim(rows, chosen, now), now)| == |DueRows(rows, now)| - |chosen|
  {
    var due := DueRows(rows, now);
    assert due - {} == due;
    ClaimRemovesFromDue(rows, now, chosen);
    assert |due - chosen| == |due| - |chosen|;
  }

  /**
   The scheduler's beat while the clock stands still and nothing else writes: it claims until
   nothing is due, and no claim aborts.
  */
  method ClaimUntilNoneDue(db: Database, now: Time, limit: nat) returns (batches: seq<set<NotificationId>>)
    requires limit > 0
    requires forall id | id in db.rows :: RowChecks(db.rows[id]) && db.rows[id].createdAt <= now
    modifies db
    ensures Drains(old(db.rows), now, limit, batches)
    ensures db.rows == AfterClaims(old(db.rows), now, batches) && db.attempts == old(db.attempts)
    ensures forall id | id in db.rows && db.rows[id].state == Queued && db.rows[id].nextRetryAt.Some? ::
              db.rows[id].nextRetryAt.value > now
    decreases |DueRows(db.rows, now)|
  {
    ClaimsCheck(db.rows, now);
    var claim := ClaimRetryable(db, now, limit, {});
    OneClaimLess(old(db.rows), now, limit, claim.value);
    if claim.value == {} {
      assert db.rows == old(db.rows);
      return [];
    }
    var rest := ClaimUntilNoneDue(db, now, limit);
    batches := [claim.value] + rest;
  }

  lemma DueRowsAre(rows: map<NotificationId, Row>, now: Time)
    ensures DueRows(rows, now)
            == set id | id in rows && rows[id].state == Queued && rows[id].nextRetryAt.Some? && rows[id].nextRetryAt.value <= now
  {
  }

  lemma FirstRoundPrecedes(rows: map<NotificationId, Row>, now: Time, limit: nat, batches: seq<set<NotificationId>>,
                           j: nat, earlier: NotificationId, later: NotificationId)
    requires Drains(rows, now, limit, batches) && 0 < j < |batches|
    requires earlier in batches[0] && later in batches[j]
    ensures earlier != later && earlier in DueRows(rows, now) && later in DueRows(rows, now)
    ensures !Precedes(rows[later], rows[earlier])
  {
    FirstRound(rows, now, limit, batches);
    DrainCovers(ApplyClaim(rows, batches[0], now), now, limit, batches[1..]);
    InUnion(batches[1..], j - 1);
    assert later in DueRows(rows, now) - batches[0];
  }

  lemma StillDue(rows: map<NotificationId, Row>, now: Time, chosen: set<NotificationId>, id: NotificationId)
    requires id in DueRows(ApplyClaim(rows, chosen, now), now)
    ensures id in DueRows(rows, now) && ApplyClaim(rows, chosen, now)[id] == rows[id]
  {
  }

  /** No row is claimed twice, and no row of a later round precedes one of an earlier round. */
  lemma {:induction false} DrainRoundsAreOrdered(rows: map<NotificationId, Row>, now: Time, limit: nat, batches: seq<set<NotificationId>>,
                                                 i: nat, j: nat, earlier: NotificationId, later: NotificationId)
    requires Drains(rows, now, limit, batches)
    requires i < j < |batches| && earlier in batches[i] && later in batches[j]
    ensures earlier != later && earlier in DueRows(rows, now) && later in DueRows(rows, now)
    ensures || rows[earlier].nextRetryAt.value < rows[later].nextRetryAt.value
            || (rows[earlier].nextRetryAt == rows[later].nextRetryAt && rows[earlier].createdAt <= rows[later].createdAt)
    decreases |batches|
  {
    if i == 0 {
      FirstRoundPrecedes(rows, now, limit, batches, j, earlier, later);
    } else {
      DrainRoundsAreOrdered(ApplyClaim(rows, batches[0], now), now, limit, batches[1..], i - 1, j - 1, earlier, later);
      StillDue(rows, now, batches[0], earlier);
      StillDue(rows, now, batches[0], later);
    }
  }
}
