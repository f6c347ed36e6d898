/**
 sliding_window_limiter one request at a time, one Redis command at a time: the key can expire
 between any two commands, and the deadline it had from an earlier request can pass after ZADD and
 before EXPIRE renews it. Which expiries the limiter survives, exactly.
*/
module KeyLifetime {
  import opened Prelude
  import opened SlidingWindow

  datatype Setting = Setting(limit: nat, window: Score)

  /** The command a request runs next, with the clock reading it took. */
  datatype Phase =
    | Idle
    | ToPrune(now: Score)
    | ToCount(now: Score)
    | ToAdd(now: Score)
    | ToExpire(now: Score)

  datatype System = System(clock: Score, key: ZSet, phase: Phase, admitted: seq<Score>)

  datatype Step = Tick(dt: Score) | Next | KeyFires

  const INITIAL := System(0.0, ABSENT, Idle, [])

  /** The next command of the request under way, or the clock reading that starts one. */
  function ApplyNext(c: Setting, s: System): System {
    match s.phase
    case Idle => s.(phase := ToPrune(s.clock))
    case ToPrune(now) => s.(key := Pruned(s.key, now - c.window), phase := ToCount(now))
    case ToCount(now) =>
      s.(phase := if CountFrom(s.key.scores, now - c.window) >= c.limit then Idle else ToAdd(now))
    case ToAdd(now) =>
      s.(key := s.key.(scores := s.key.scores + [now]), admitted := s.admitted + [now], phase := ToExpire(now))
    case ToExpire(_) => s.(key := Expiring(s.key, s.clock + c.window), phase := Idle)
  }

  function Apply(c: Setting, s: System, step: Step): System {
    match step
    case Tick(dt) => if dt >= 0.0 then s.(clock := s.clock + dt) else s
    case Next => ApplyNext(c, s)
    case KeyFires => s.(key := Fired(s.key, s.clock))
  }

  function Run(c: Setting, steps: seq<Step>): System {
    if steps == [] then INITIAL else Apply(c, Run(c, steps[..|steps| - 1]), steps[|steps| - 1])
  }

  /** Where a decision is due: `now` is the reading it is made for. */
  function Reading(s: System): Score {
    if s.phase.Idle? then s.clock else s.phase.now
  }

  /** An expiry inside a request that drops the key while an admission is still inside its window. */
  predicate Harmful(c: Setting, s: System, step: Step) {
    && step.KeyFires? && !s.phase.Idle? && Fired(s.key, s.clock) != s.key
    && NewerThan(s.admitted, s.phase.now - c.window) != []
  }

  ghost predicate NoHarm(c: Setting, steps: seq<Step>) {
    forall i :: 0 <= i < |steps| ==> !Harmful(c, Run(c, steps[..i]), steps[i])
  }

  ghost predicate Agree(c: Setting, s: System) {
    AgreeFrom(s.key.scores, s.admitted, c.window, Reading(s))
  }

  ghost predicate Inv(c: Setting, s: System) {
    && Agree(c, s) && Reading(s) <= s.clock
    && (s.phase.ToCount? ==> forall i :: 0 <= i < |s.key.scores| ==> s.key.scores[i] > s.phase.now - c.window)
    && (s.phase.ToExpire? ==> s.key.scores != [] && s.admitted != [] && s.admitted[|s.admitted| - 1] == s.phase.now)
    && (!s.phase.ToExpire? ==> Outlives(s.key, s.admitted, c.window))
  }

  lemma EmptyAgreesFrom(admitted: seq<Score>, low: Score, start: Score)
    requires low <= start && NewerThan(admitted, low) == []
    ensures SameFrom([], admitted, start)
  {
    NewerTwice(admitted, low, start);
  }

  lemma LaterAgrees(scores: seq<Score>, admitted: seq<Score>, window: Score, last: Score, later: Score)
    requires AgreeFrom(scores, admitted, window, last) && last <= later
    ensures AgreeFrom(scores, admitted, window, later)
  {
  }

  /** A dropped key agrees with the history exactly when no admission is inside the window any more. */
  lemma DroppedAgreesIff(scores: seq<Score>, admitted: seq<Score>, window: Score, now: Score)
    requires AgreeFrom(scores, admitted, window, now)
    ensures AgreeFrom([], admitted, window, now) <==> NewerThan(admitted, now - window) == []
  {
    if AgreeFrom([], admitted, window, now) {
      assert SameFrom([], admitted, now - window);
    }
    if NewerThan(admitted, now - window) == [] {
      forall start: Score | start >= now - window
        ensures SameFrom([], admitted, start)
      {
        EmptyAgreesFrom(admitted, now - window, start);
      }
    }
  }

  /** A deadline that has passed between requests is past every admission's window. */
  lemma IdleFireAgrees(c: Setting, s: System)
    requires Inv(c, s) && s.phase.Idle?
    ensures Inv(c, Apply(c, s, KeyFires))
  {
    FireKeepsFaithful(Trace(s.key, s.admitted), c.window, s.clock, s.clock);
  }

  lemma FireKeepsInv(c: Setting, s: System)
    requires Inv(c, s) && !Harmful(c, s, KeyFires) && c.window > 0.0
    ensures Inv(c, Apply(c, s, KeyFires))
  {
    if s.phase.Idle? {
      IdleFireAgrees(c, s);
    } else if Fired(s.key, s.clock) != s.key {
      DroppedAgreesIff(s.key.scores, s.admitted, c.window, s.phase.now);
    }
  }

  lemma PruneKeepsInv(c: Setting, s: System)
    requires Inv(c, s) && s.phase.ToPrune?
    ensures Inv(c, ApplyNext(c, s))
  {
    PrunedScores(s.key, s.phase.now - c.window);
    PruneKeepsFaithful(Trace(s.key, s.admitted), c.window, s.phase.now, s.phase.now);
  }

  lemma CountKeepsInv(c: Setting, s: System)
    requires Inv(c, s) && s.phase.ToCount?
    ensures Inv(c, ApplyNext(c, s))
  {
    LaterAgrees(s.key.scores, s.admitted, c.window, s.phase.now, s.clock);
  }

  lemma AddKeepsInv(c: Setting, s: System)
    requires Inv(c, s) && s.phase.ToAdd?
    ensures Inv(c, ApplyNext(c, s))
  {
    AddKeepsAgreement(s.key.scores, s.admitted, c.window, s.phase.now);
  }

  lemma ExpireKeepsInv(c: Setting, s: System)
    requires Inv(c, s) && s.phase.ToExpire?
    ensures Inv(c, ApplyNext(c, s))
  {
    LaterAgrees(s.key.scores, s.admitted, c.window, s.phase.now, s.clock);
  }

  lemma StepKeepsInv(c: Setting, s: System, step: Step)
    requires Inv(c, s) && !Harmful(c, s, step) && c.window > 0.0
    ensures Inv(c, Apply(c, s, step))
  {
    match step {
      case Tick(dt) =>
        if s.phase.Idle? && dt >= 0.0 {
          LaterAgrees(s.key.scores, s.admitted, c.window, s.clock, s.clock + dt);
        }
      case KeyFires => FireKeepsInv(c, s);
      case Next =>
        match s.phase {
          case Idle =>
          case ToPrune(_) => PruneKeepsInv(c, s);
          case ToCount(_) => CountKeepsInv(c, s);
          case ToAdd(_) => AddKeepsInv(c, s);
          case ToExpire(_) => ExpireKeepsInv(c, s);
        }
    }
  }

  lemma {:induction false} InvHolds(c: Setting, steps: seq<Step>)
    requires NoHarm(c, steps) && c.window > 0.0
    ensures Inv(c, Run(c, steps))
  {
    if steps != [] {
      var n := |steps| - 1;
      assert forall i :: 0 <= i < n ==> steps[..n][..i] == steps[..i] && steps[..n][i] == steps[i];
      InvHolds(c, steps[..n]);
      assert !Harmful(c, Run(c, steps[..n]), steps[n]);
      StepKeepsInv(c, Run(c, steps[..n]), steps[n]);
    }
  }

  /** Wherever no harmful expiry has happened, a request is decided as by the limiter over the full history. */
  lemma DecidesLikeFullHistory(c: Setting, steps: seq<Step>)
    requires NoHarm(c, steps) && c.window > 0.0 && Run(c, steps).phase.ToCount?
    ensures var s := Run(c, steps);
            Apply(c, s, Next).phase.ToAdd? <==> NaiveAllows(s.admitted, c.limit, c.window, s.phase.now)
  {
    InvHolds(c, steps);
    CountIsNaive(c, Run(c, steps));
  }

  lemma CountIsNaive(c: Setting, s: System)
    requires Inv(c, s) && s.phase.ToCount?
    ensures ApplyNext(c, s).phase.ToAdd? <==> NaiveAllows(s.admitted, c.limit, c.window, s.phase.now)
  {
    var start := s.phase.now - c.window;
    assert SameFrom(s.key.scores, s.admitted, start);
    CountAll(s.key.scores, start);
    AllNewer(s.key.scores, start);
  }

  /**
   And the first expiry that is harmful breaks it: after any expiry the stored scores agree with the
   history if and only if the expiry was not harmful.
  */
  lemma FireAgreesIff(c: Setting, steps: seq<Step>)
    requires NoHarm(c, steps) && c.window > 0.0
    ensures Agree(c, Apply(c, Run(c, steps), KeyFires)) <==> !Harmful(c, Run(c, steps), KeyFires)
  {
    InvHolds(c, steps);
    FireAgrees(c, Run(c, steps));
  }

  lemma FireAgrees(c: Setting, s: System)
    requires Inv(c, s) && c.window > 0.0
    ensures Agree(c, s.(key := Fired(s.key, s.clock))) <==> !Harmful(c, s, KeyFires)
  {
    if !Harmful(c, s, KeyFires) {
      FireKeepsInv(c, s);
    } else {
      DroppedAgreesIff(s.key.scores, s.admitted, c.window, s.phase.now);
    }
  }

  // ---------------------------------------------------------- an admission is lost

  lemma RunSnoc(c: Setting, steps: seq<Step>, step: Step)
    ensures Run(c, steps + [step]) == Apply(c, Run(c, steps), step)
  {
    assert (steps + [step])[..|steps|] == steps;
  }

  const TWO_PER_30 := Setting(2, 30.0)

  /** Three commands bring a request from its clock reading to a decision. */
  lemma Decided(c: Setting, steps: seq<Step>) returns (more: seq<Step>)
    requires Run(c, steps).phase.Idle?
    ensures var s := Run(c, steps);
            Run(c, more) == s.(key := Pruned(s.key, s.clock - c.window), phase := ToCount(s.clock))
  {
    RunSnoc(c, steps, Next);
    RunSnoc(c, steps + [Next], Next);
    more := steps + [Next] + [Next];
  }

  lemma Added(c: Setting, steps: seq<Step>) returns (more: seq<Step>)
    requires Run(c, steps).phase.ToCount?
    requires CountFrom(Run(c, steps).key.scores, Run(c, steps).phase.now - c.window) < c.limit
    ensures var s := Run(c, steps);
            Run(c, more) == s.(key := s.key.(scores := s.key.scores + [s.phase.now]),
                               admitted := s.admitted + [s.phase.now], phase := ToExpire(s.phase.now))
  {
    RunSnoc(c, steps, Next);
    RunSnoc(c, steps + [Next], Next);
    more := steps + [Next] + [Next];
  }

  /** Two scores, counted and filtered one by one. */
  lemma TwoScores(a: Score, b: Score, start: Score)
    ensures NewerThan([a], start) == (if a > start then [a] else [])
    ensures NewerThan([a, b], start) == (if a > start then [a] else []) + (if b > start then [b] else [])
    ensures CountFrom([a], start) == if a >= start then 1 else 0
  {
    assert [a, b][..1] == [a] && [a][..0] == [];
  }

  lemma FirstCall() returns (steps: seq<Step>)
    ensures Run(TWO_PER_30, steps) == System(29.0, ZSet([0.0], Some(30.0)), Idle, [0.0])
  {
    var c := TWO_PER_30;
    steps := Decided(c, []);
    steps := Added(c, steps);
    RunSnoc(c, steps, Next);
    steps := steps + [Next];
    RunSnoc(c, steps, Tick(29.0));
    steps := steps + [Tick(29.0)];
  }

  /** A request at 0 sets the deadline 30; one at 29 adds its entry and is overtaken by that deadline. */
  lemma EntryLost() returns (steps: seq<Step>)
    ensures Run(TWO_PER_30, steps) == System(30.0, ABSENT, Idle, [0.0, 29.0])
  {
    var c := TWO_PER_30;
    steps := FirstCall();
    TwoScores(0.0, 0.0, -1.0);
    steps := Decided(c, steps);
    steps := Added(c, steps);
    assert Run(c, steps) == System(29.0, ZSet([0.0, 29.0], Some(30.0)), ToExpire(29.0), [0.0, 29.0]);
    RunSnoc(c, steps, Tick(1.0));
    RunSnoc(c, steps + [Tick(1.0)], KeyFires);
    RunSnoc(c, steps + [Tick(1.0)] + [KeyFires], Next);
    steps := steps + [Tick(1.0)] + [KeyFires] + [Next];
  }

  /** One request at a time, limit two: the third admission within a window, after one was lost. */
  lemma LostEntryOvershootsReachable() returns (steps: seq<Step>)
    ensures var s := Run(TWO_PER_30, steps);
            && s.admitted == [0.0, 29.0, 30.0] && s.phase == ToCount(30.0)
            && Apply(TWO_PER_30, s, Next).phase.ToAdd?
            && !NaiveAllows(s.admitted, 2, 30.0, 30.0)
  {
    var c := TWO_PER_30;
    steps := EntryLost();
    steps := Decided(c, steps);
    steps := Added(c, steps);
    RunSnoc(c, steps, Next);
    steps := steps + [Next];
    assert Run(c, steps) == System(30.0, ZSet([30.0], Some(60.0)), Idle, [0.0, 29.0, 30.0]);
    TwoScores(30.0, 0.0, 0.0);
    steps := Decided(c, steps);
    ThreeScores();
  }

  lemma ThreeScores()
    ensures NewerThan([0.0, 29.0, 30.0], 0.0) == [29.0, 30.0]
  {
    assert [0.0, 29.0, 30.0][..2] == [0.0, 29.0];
    TwoScores(0.0, 29.0, 0.0);
  }
}
