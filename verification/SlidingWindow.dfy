/**
 sliding_window_limiter over Redis sorted sets, one call at a time: the stored set is pruned on
 every call and dropped when its key's deadline has passed, and still decides as if it held the
 whole history.

 A sorted set is the sequence of its scores: members are fresh UUIDs, so no entry overwrites another.
*/
module SlidingWindow {
  import opened Prelude

  /** Unix time in seconds, as `time()` returns it. */
  type Score = real

  /** The scores strictly above `start`: what ZREMRANGEBYSCORE -inf start leaves. */
  function NewerThan(scores: seq<Score>, start: Score): (newer: seq<Score>)
    ensures |newer| <= |scores|
    ensures forall i :: 0 <= i < |newer| ==> newer[i] > start
  {
    if scores == [] then []
    else
      var n := |scores| - 1;
      var before := NewerThan(scores[..n], start);
      if scores[n] > start then before + [scores[n]] else before
  }

  /** ZCOUNT start +inf. */
  function CountFrom(scores: seq<Score>, start: Score): (count: nat)
    ensures count <= |scores|
  {
    if scores == [] then 0
    else
      var n := |scores| - 1;
      CountFrom(scores[..n], start) + if scores[n] >= start then 1 else 0
  }

  /** A stored set, and when its key expires; a set that is not there has neither entries nor deadline. */
  datatype ZSet = ZSet(scores: seq<Score>, deadline: Option<Score>)

  const ABSENT := ZSet([], None)

  /** ZREMRANGEBYSCORE -inf start: a set left empty is gone, its deadline with it. */
  function Pruned(z: ZSet, start: Score): ZSet {
    if NewerThan(z.scores, start) == [] then ABSENT else z.(scores := NewerThan(z.scores, start))
  }

  /** EXPIRE, which does nothing to a set that is not there. */
  function Expiring(z: ZSet, deadline: Score): ZSet {
    if z.scores == [] then z else z.(deadline := Some(deadline))
  }

  /** The server at `at`, about a key whose deadline may have passed. */
  function Fired(z: ZSet, at: Score): ZSet {
    if z.deadline.Some? && at >= z.deadline.value then ABSENT else z
  }

  /**
   One call that no expiry interrupts: the decision and the set it leaves. It reads the clock at
   `now`, and the server runs its EXPIRE at `settled`.
  */
  function Decide(z: ZSet, limit: int, window: Score, now: Score, settled: Score): (bool, ZSet) {
    var pruned := Pruned(z, now - window);
    if CountFrom(pruned.scores, now - window) >= limit then (false, pruned)
    else (true, ZSet(pruned.scores + [now], Some(settled + window)))
  }

  /** What a limiter that never forgets would answer. */
  predicate NaiveAllows(history: seq<Score>, limit: int, window: Score, now: Score) {
    |NewerThan(history, now - window)| < limit
  }

  class RedisServer {
    var zsets: map<string, ZSet>

    constructor ()
      ensures zsets == map[]
    {
      zsets := map[];
    }

    function Key(key: string): ZSet
      reads this
    {
      if key in zsets then zsets[key] else ABSENT
    }

    method ZRemRangeByScore(key: string, max: Score)
      modifies this
      ensures Key(key) == Pruned(old(Key(key)), max)
      ensures Key(key).scores == NewerThan(old(Key(key)).scores, max)
      ensures Key(key).deadline == if Key(key).scores == [] then None else old(Key(key)).deadline
      ensures forall other | other != key :: Key(other) == old(Key(other))
    {
      zsets := zsets[key := Pruned(Key(key), max)];
    }

    method ZCount(key: string, min: Score) returns (count: nat)
      ensures count == CountFrom(Key(key).scores, min)
    {
      count := 0;
      var scores := Key(key).scores;
      for i := 0 to |scores|
        invariant count == CountFrom(scores[..i], min)
      {
        assert scores[..i + 1][..i] == scores[..i];
        if scores[i] >= min {
          count := count + 1;
        }
      }
      assert scores[..|scores|] == scores;
    }

    /** Adding to a set keeps its deadline, and a set that is not there gets none. */
    method ZAdd(key: string, score: Score)
      modifies this
      ensures Key(key) == old(Key(key)).(scores := old(Key(key)).scores + [score])
      ensures forall other | other != key :: Key(other) == old(Key(other))
    {
      var z := Key(key);
      zsets := zsets[key := z.(scores := z.scores + [score])];
    }

    method Expire(key: string, deadline: Score)
      modifies this
      ensures Key(key).scores == old(Key(key)).scores
      ensures Key(key).deadline == if Key(key).scores == [] then old(Key(key)).deadline else Some(deadline)
      ensures forall other | other != key :: Key(other) == old(Key(other))
    {
      zsets := zsets[key := Expiring(Key(key), deadline)];
    }

    method SlidingWindowLimiter(key: string, limit: int, window: Score, now: Score, settled: Score) returns (allowed: bool)
      modifies this
      ensures (allowed, Key(key)) == Decide(old(Key(key)), limit, window, now, settled)
      ensures forall other | other != key :: Key(other) == old(Key(other))
    {
      var windowStart := now - window;
      ghost var before := Key(key);
      ZRemRangeByScore(key, windowStart);
      ghost var pruned := Key(key);
      assert pruned == Pruned(before, windowStart);
      var requestCount := ZCount(key, windowStart);
      if requestCount >= limit {
        return false;
      }
      ZAdd(key, now);
      Expire(key, settled + window);
      allowed := true;
    }
  }

  // ------------------------------------------------------- calls and expiries, in clock order

  /** A call, from its clock reading to its EXPIRE, or a moment at which the server looks at the deadline. */
  datatype Event = Call(at: Score, settled: Score) | Fire(at: Score)

  /** The stored set, and every admitted timestamp since the beginning. */
  datatype Trace = Trace(key: ZSet, admitted: seq<Score>)

  function After(events: seq<Event>, limit: int, window: Score): Trace {
    if events == [] then Trace(ABSENT, [])
    else
      var n := |events| - 1;
      var t := After(events[..n], limit, window);
      match events[n]
      case Fire(at) => t.(key := Fired(t.key, at))
      case Call(now, settled) =>
        var (allowed, key) := Decide(t.key, limit, window, now, settled);
        Trace(key, if allowed then t.admitted + [now] else t.admitted)
  }

  function Ends(e: Event): Score {
    match e case Call(_, settled) => settled case Fire(at) => at
  }

  /** The clock never runs backwards, and a deadline is looked at between calls, not inside one. */
  ghost predicate InOrder(events: seq<Event>) {
    forall i :: 0 <= i < |events| ==>
                  && events[i].at <= Ends(events[i])
                  && (i > 0 ==> Ends(events[i - 1]) <= events[i].at)
  }

  predicate Sorted(scores: seq<Score>) {
    forall i, j :: 0 <= i < j < |scores| ==> scores[i] <= scores[j]
  }

  lemma {:induction false} NewerTwice(scores: seq<Score>, low: Score, high: Score)
    requires low <= high
    ensures NewerThan(NewerThan(scores, low), high) == NewerThan(scores, high)
  {
    if scores != [] {
      var n := |scores| - 1;
      NewerTwice(scores[..n], low, high);
      if scores[n] > low {
        NewerAppend(NewerThan(scores[..n], low), scores[n], high);
        assert NewerThan(scores, low) == NewerThan(scores[..n], low) + [scores[n]];
      }
    }
  }

  lemma NewerAppend(scores: seq<Score>, t: Score, start: Score)
    ensures NewerThan(scores + [t], start) == NewerThan(scores, start) + if t > start then [t] else []
  {
    assert (scores + [t])[..|scores|] == scores;
  }

  lemma {:induction false} AllNewer(scores: seq<Score>, start: Score)
    requires forall i :: 0 <= i < |scores| ==> scores[i] > start
    ensures NewerThan(scores, start) == scores
  {
    if scores != [] {
      AllNewer(scores[..|scores| - 1], start);
    }
  }

  /** Once pruned, everything left is counted. */
  lemma {:induction false} CountAll(scores: seq<Score>, start: Score)
    requires forall i :: 0 <= i < |scores| ==> scores[i] >= start
    ensures CountFrom(scores, start) == |scores|
  {
    if scores != [] {
      CountAll(scores[..|scores| - 1], start);
    }
  }

  predicate SameFrom(scores: seq<Score>, admitted: seq<Score>, start: Score) {
    NewerThan(scores, start) == NewerThan(admitted, start)
  }

  /** The stored scores and the full history agree on every window a later call can look at. */
  ghost predicate AgreeFrom(scores: seq<Score>, admitted: seq<Score>, window: Score, last: Score) {
    && (forall start: Score | start >= last - window :: SameFrom(scores, admitted, start))
    && (forall i :: 0 <= i < |admitted| ==> admitted[i] <= last)
    && Sorted(admitted)
  }

  /** No key expires before every admission has left the window. */
  ghost predicate Outlives(z: ZSet, admitted: seq<Score>, window: Score) {
    z.deadline.Some? ==> forall i :: 0 <= i < |admitted| ==> admitted[i] + window <= z.deadline.value
  }

  ghost predicate Faithful(t: Trace, window: Score, last: Score) {
    AgreeFrom(t.key.scores, t.admitted, window, last) && Outlives(t.key, t.admitted, window)
  }

  lemma PrunedScores(z: ZSet, start: Score)
    ensures Pruned(z, start).scores == NewerThan(z.scores, start)
  {
  }

  lemma DecideIsNaive(t: Trace, limit: int, window: Score, last: Score, now: Score, settled: Score)
    requires AgreeFrom(t.key.scores, t.admitted, window, last) && last <= now
    ensures Decide(t.key, limit, window, now, settled).0 <==> NaiveAllows(t.admitted, limit, window, now)
  {
    PrunedScores(t.key, now - window);
    assert SameFrom(t.key.scores, t.admitted, now - window);
    CountAll(NewerThan(t.key.scores, now - window), now - window);
  }

  lemma AddedAgreesFrom(scores: seq<Score>, admitted: seq<Score>, now: Score, start: Score)
    requires SameFrom(scores, admitted, start)
    ensures SameFrom(scores + [now], admitted + [now], start)
  {
    NewerAppend(scores, now, start);
    NewerAppend(admitted, now, start);
  }

  lemma AddKeepsAgreement(scores: seq<Score>, admitted: seq<Score>, window: Score, now: Score)
    requires AgreeFrom(scores, admitted, window, now)
    ensures AgreeFrom(scores + [now], admitted + [now], window, now)
  {
    forall start: Score | start >= now - window
      ensures SameFrom(scores + [now], admitted + [now], start)
    {
      AddedAgreesFrom(scores, admitted, now, start);
    }
  }

  lemma PrunedAgreesFrom(scores: seq<Score>, admitted: seq<Score>, low: Score, start: Score)
    requires low <= start && SameFrom(scores, admitted, start)
    ensures SameFrom(NewerThan(scores, low), admitted, start)
  {
    NewerTwice(scores, low, start);
  }

  lemma PruneKeepsAgreement(scores: seq<Score>, pruned: seq<Score>, admitted: seq<Score>, window: Score, last: Score, now: Score)
    requires AgreeFrom(scores, admitted, window, last) && last <= now && pruned == NewerThan(scores, now - window)
    ensures AgreeFrom(pruned, admitted, window, now)
  {
    forall start: Score | start >= now - window
      ensures SameFrom(pruned, admitted, start)
    {
      PrunedAgreesFrom(scores, admitted, now - window, start);
    }
  }

  lemma PruneKeepsFaithful(t: Trace, window: Score, last: Score, now: Score)
    requires Faithful(t, window, last) && last <= now
    ensures Faithful(t.(key := Pruned(t.key, now - window)), window, now)
  {
    PrunedScores(t.key, now - window);
    PruneKeepsAgreement(t.key.scores, Pruned(t.key, now - window).scores, t.admitted, window, last, now);
  }

  lemma CallKeepsFaithful(t: Trace, limit: int, window: Score, last: Score, now: Score, settled: Score)
    requires Faithful(t, window, last) && last <= now <= settled
    ensures var (allowed, key) := Decide(t.key, limit, window, now, settled);
            Faithful(Trace(key, if allowed then t.admitted + [now] else t.admitted), window, settled)
  {
    var pruned := Pruned(t.key, now - window);
    PruneKeepsFaithful(t, window, last, now);
    AddKeepsAgreement(pruned.scores, t.admitted, window, now);
  }

  lemma {:induction false} NoneNewer(scores: seq<Score>, start: Score)
    requires forall i :: 0 <= i < |scores| ==> scores[i] <= start
    ensures NewerThan(scores, start) == []
  {
    if scores != [] {
      NoneNewer(scores[..|scores| - 1], start);
    }
  }

  /** When a deadline has passed, everything admitted has left the window. */
  lemma FireKeepsFaithful(t: Trace, window: Score, last: Score, at: Score)
    requires Faithful(t, window, last) && last <= at
    ensures Faithful(t.(key := Fired(t.key, at)), window, at)
  {
    if Fired(t.key, at) != t.key {
      forall start: Score | start >= at - window
        ensures SameFrom([], t.admitted, start)
      {
        NoneNewer(t.admitted, start);
      }
    }
  }

  lemma {:induction false} StaysFaithful(events: seq<Event>, limit: int, window: Score)
    requires InOrder(events)
    ensures events != [] ==> Faithful(After(events, limit, window), window, Ends(events[|events| - 1]))
    decreases |events|
  {
    if events != [] {
      var n := |events| - 1;
      StaysFaithful(events[..n], limit, window);
      var t := After(events[..n], limit, window);
      var last := if n > 0 then Ends(events[n - 1]) else events[n].at;
      match events[n] {
        case Call(now, settled) => CallKeepsFaithful(t, limit, window, last, now, settled);
        case Fire(at) => FireKeepsFaithful(t, window, last, at);
      }
    }
  }

  /**
   Refinement: over any calls and expiries in clock order, each call is decided exactly as by the
   limiter that counts every admitted timestamp newer than now - window.
  */
  lemma PrunedSetDecidesLikeFullHistory(events: seq<Event>, limit: int, window: Score, i: nat)
    requires InOrder(events) && i < |events| && events[i].Call?
    ensures var t := After(events[..i], limit, window);
            Decide(t.key, limit, window, events[i].at, events[i].settled).0
            <==> NaiveAllows(t.admitted, limit, window, events[i].at)
  {
    StaysFaithful(events[..i], limit, window);
    DecideIsNaive(After(events[..i], limit, window), limit, window, if i > 0 then Ends(events[i - 1]) else events[i].at,
                  events[i].at, events[i].settled);
  }

  // ----------------------------------------------------------------------- window safety

  /** Any `limit` consecutive admissions are followed by none before a window has passed. */
  ghost predicate Spaced(admitted: seq<Score>, limit: nat, window: Score) {
    forall i, j :: 0 <= i <= j < |admitted| && i + limit <= j ==> admitted[j] >= admitted[i] + window
  }

  lemma {:induction false} NewerIsSuffix(scores: seq<Score>, start: Score, i: nat)
    requires Sorted(scores) && i < |scores| && scores[i] > start
    ensures |NewerThan(scores, start)| >= |scores| - i
    decreases |scores|
  {
    var n := |scores| - 1;
    assert scores[n] > start;
    if i < n {
      NewerIsSuffix(scores[..n], start, i);
    }
  }

  lemma {:induction false} AdmissionsAreSpaced(events: seq<Event>, limit: nat, window: Score)
    requires InOrder(events)
    ensures Spaced(After(events, limit, window).admitted, limit, window)
    decreases |events|
  {
    if events != [] {
      var n := |events| - 1;
      AdmissionsAreSpaced(events[..n], limit, window);
      StaysFaithful(events[..n], limit, window);
      StaysFaithful(events, limit, window);
      if events[n].Call? {
        PrunedSetDecidesLikeFullHistory(events, limit, window, n);
        NewAdmissionIsSpaced(After(events[..n], limit, window).admitted, limit, window, events[n].at);
      }
    }
  }

  lemma NewAdmissionIsSpaced(admitted: seq<Score>, limit: nat, window: Score, now: Score)
    requires Sorted(admitted) && Spaced(admitted, limit, window)
    ensures NaiveAllows(admitted, limit, window, now) ==> Spaced(admitted + [now], limit, window)
  {
    if NaiveAllows(admitted, limit, window, now) {
      assert limit > 0;
      forall i, j | 0 <= i <= j < |admitted + [now]| && i + limit <= j
        ensures (admitted + [now])[j] >= (admitted + [now])[i] + window
      {
        if j == |admitted| && admitted[i] > now - window {
          NewerIsSuffix(admitted, now - window, i);
        }
      }
    }
  }

  /** The admissions that fall in [low, high), or in (low, high]. */
  function CountWithin(scores: seq<Score>, low: Score, high: Score, closedLow: bool): nat {
    if scores == [] then 0
    else
      var n := |scores| - 1;
      CountWithin(scores[..n], low, high, closedLow) + if Within(scores[n], low, high, closedLow) then 1 else 0
  }

  predicate Within(t: Score, low: Score, high: Score, closedLow: bool) {
    if closedLow then low <= t < high else low < t <= high
  }

  function IndicesWithin(scores: seq<Score>, low: Score, high: Score, closedLow: bool): set<int> {
    set i | 0 <= i < |scores| && Within(scores[i], low, high, closedLow)
  }

  lemma {:induction false} CountIsSize(scores: seq<Score>, low: Score, high: Score, closedLow: bool)
    ensures CountWithin(scores, low, high, closedLow) == |IndicesWithin(scores, low, high, closedLow)|
  {
    if scores != [] {
      var n := |scores| - 1;
      CountIsSize(scores[..n], low, high, closedLow);
      OneMoreIndex(scores, low, high, closedLow);
    }
  }

  lemma OneMoreIndex(scores: seq<Score>, low: Score, high: Score, closedLow: bool)
    requires scores != []
    ensures var n := |scores| - 1;
            IndicesWithin(scores, low, high, closedLow)
            == IndicesWithin(scores[..n], low, high, closedLow) + if Within(scores[n], low, high, closedLow) then {n} else {}
  {
  }

  lemma CountWithinIs(scores: seq<Score>, low: Score, high: Score, closedLow: bool)
    ensures CountWithin(scores, low, high, closedLow)
            == |set i | 0 <= i < |scores| && (if closedLow then low <= scores[i] < high else low < scores[i] <= high)|
  {
    CountIsSize(scores, low, high, closedLow);
    assert IndicesWithin(scores, low, high, closedLow)
           == set i | 0 <= i < |scores| && (if closedLow then low <= scores[i] < high else low < scores[i] <= high);
  }

  /** What pruning keeps is what lies in the window, up to the last score. */
  lemma {:induction false} NewerIsCount(scores: seq<Score>, low: Score, high: Score)
    requires forall i :: 0 <= i < |scores| ==> scores[i] <= high
    ensures |NewerThan(scores, low)| == CountWithin(scores, low, high, false)
  {
    if scores != [] {
      NewerIsCount(scores[..|scores| - 1], low, high);
    }
  }

  /** The limiter that never forgets counts the admissions of the window that ends with the call. */
  lemma NaiveCounts(history: seq<Score>, limit: int, window: Score, now: Score)
    requires forall i :: 0 <= i < |history| ==> history[i] <= now
    ensures NaiveAllows(history, limit, window, now) <==> CountWithin(history, now - window, now, false) < limit
  {
    NewerIsCount(history, now - window, now);
  }

  /**
   One call against a stored set that stands for its history: it is allowed if and only if fewer than
   `limit` admissions lie within the window that ends with its clock reading; then the set keeps that
   window and the reading, and its key lives for a window from the server's clock.
  */
  lemma DecisionCounts(t: Trace, limit: int, window: Score, last: Score, now: Score, settled: Score)
    requires AgreeFrom(t.key.scores, t.admitted, window, last) && last <= now
    ensures var (allowed, key) := Decide(t.key, limit, window, now, settled);
            && (allowed <==> CountWithin(t.admitted, now - window, now, false) < limit)
            && key.scores == (if allowed then NewerThan(t.key.scores, now - window) + [now] else NewerThan(t.key.scores, now - window))
            && (allowed ==> key.deadline == Some(settled + window))
  {
    DecideIsNaive(t, limit, window, last, now, settled);
    NaiveCounts(t.admitted, limit, window, now);
    PrunedScores(t.key, now - window);
  }

  lemma {:induction false} NoneCounted(scores: seq<Score>, low: Score, high: Score, closedLow: bool)
    requires forall i :: 0 <= i < |scores| ==> !Within(scores[i], low, high, closedLow)
    ensures CountWithin(scores, low, high, closedLow) == 0
  {
    if scores != [] {
      NoneCounted(scores[..|scores| - 1], low, high, closedLow);
    }
  }

  lemma {:induction false} CountSplit(scores: seq<Score>, m: nat, low: Score, high: Score, closedLow: bool)
    requires m <= |scores|
    ensures CountWithin(scores, low, high, closedLow) <= CountWithin(scores[..m], low, high, closedLow) + |scores| - m
    decreases |scores|
  {
    var n := |scores| - 1;
    if m <= n {
      assert scores[..n][..m] == scores[..m];
      CountSplit(scores[..n], m, low, high, closedLow);
    } else {
      assert scores[..m] == scores;
    }
  }

  /** When the last score counts, only the `limit` last ones can. */
  lemma {:induction false} SpacedCount(scores: seq<Score>, limit: nat, window: Score, low: Score, closedLow: bool)
    requires Spaced(scores, limit, window) && Sorted(scores)
    ensures CountWithin(scores, low, low + window, closedLow) <= limit
    decreases |scores|
  {
    var n := |scores| - 1;
    if n >= 0 && !Within(scores[n], low, low + window, closedLow) {
      SpacedCount(scores[..n], limit, window, low, closedLow);
    } else if n >= limit {
      var m := n + 1 - limit;
      forall i | 0 <= i < m
        ensures !Within(scores[..m][i], low, low + window, closedLow)
      {
        assert scores[n] >= scores[i] + window;
      }
      NoneCounted(scores[..m], low, low + window, closedLow);
      CountSplit(scores, m, low, low + window, closedLow);
    } else {
      CountSplit(scores, 0, low, low + window, closedLow);
    }
  }

  /** No half-open interval as long as the window, closed at either end, holds more than `limit` admissions. */
  lemma WindowIsSafe(events: seq<Event>, limit: nat, window: Score, low: Score, closedLow: bool)
    requires InOrder(events)
    ensures CountWithin(After(events, limit, window).admitted, low, low + window, closedLow) <= limit
  {
    AdmissionsAreSpaced(events, limit, window);
    StaysFaithful(events, limit, window);
    SpacedCount(After(events, limit, window).admitted, limit, window, low, closedLow);
  }
}
