/**
 sliding_window_limiter as it runs concurrently on one key: prune, count and add are separate Redis
 commands, and requests interleave between them.
*/
module ConcurrentLimiter {
  import opened Prelude
  import opened SlidingWindow

  /** At most `inFlight` requests run at once, none for longer than the window. */
  datatype Setting = Setting(limit: nat, window: Score, inFlight: nat)

  /** Each request in flight is the clock reading it took, filed under the last command it finished. */
  datatype System = System(
    clock: Score,
    entries: seq<Score>,
    started: seq<Score>,
    pruned: seq<Score>,
    passed: seq<Score>   // counted below the limit, not yet added
  )

  datatype Step =
    | Tick(dt: Score)
    | Begin
    | Prune(i: nat)
    | Count(i: nat)
    | Add(i: nat)
    | KeyExpires

  const INITIAL := System(0.0, [], [], [], [])

  function Without(s: seq<Score>, i: nat): seq<Score>
    requires i < |s|
  {
    s[..i] + s[i + 1..]
  }

  function InFlight(s: System): nat {
    |s.started| + |s.pruned| + |s.passed|
  }

  predicate NoneOlderThan(requests: seq<Score>, oldest: Score) {
    forall i :: 0 <= i < |requests| ==> requests[i] >= oldest
  }

  /** A step whose guard fails leaves the state alone; a key may expire at any moment. */
  function Apply(c: Setting, s: System, step: Step): System {
    match step
    case Tick(dt) =>
      var later := s.clock + dt;
      if dt >= 0.0 && NoneOlderThan(s.started, later - c.window) && NoneOlderThan(s.pruned, later - c.window)
         && NoneOlderThan(s.passed, later - c.window) then s.(clock := later)
      else s
    case Begin => if InFlight(s) < c.inFlight then s.(started := s.started + [s.clock]) else s
    case Prune(i) =>
      if i < |s.started| then
        var now := s.started[i];
        s.(entries := NewerThan(s.entries, now - c.window), started := Without(s.started, i), pruned := s.pruned + [now])
      else s
    case Count(i) =>
      if i < |s.pruned| then
        var now := s.pruned[i];
        var s' := s.(pruned := Without(s.pruned, i));
        if CountFrom(s.entries, now - c.window) >= c.limit then s' else s'.(passed := s.passed + [now])
      else s
    case Add(i) =>
      if i < |s.passed| then s.(entries := s.entries + [s.passed[i]], passed := Without(s.passed, i)) else s
    case KeyExpires => s.(entries := [])
  }

  function Run(c: Setting, steps: seq<Step>): System {
    if steps == [] then INITIAL
    else Apply(c, Run(c, steps[..|steps| - 1]), steps[|steps| - 1])
  }

  /** No stored entry is older than the window start of a request that has pruned: it will count them all. */
  ghost predicate CountsEverything(c: Setting, s: System) {
    forall p, e :: 0 <= p < |s.pruned| && 0 <= e < |s.entries| ==> s.entries[e] >= s.pruned[p] - c.window
  }

  ghost predicate NotAhead(s: System) {
    && (forall i :: 0 <= i < |s.started| ==> s.started[i] <= s.clock)
    && (forall i :: 0 <= i < |s.pruned| ==> s.pruned[i] <= s.clock)
    && (forall i :: 0 <= i < |s.passed| ==> s.passed[i] <= s.clock)
  }

  ghost predicate WithinWindow(c: Setting, s: System) {
    && NoneOlderThan(s.started, s.clock - c.window)
    && NoneOlderThan(s.pruned, s.clock - c.window)
    && NoneOlderThan(s.passed, s.clock - c.window)
  }

  ghost predicate Inv(c: Setting, s: System) {
    && NotAhead(s) && WithinWindow(c, s) && CountsEverything(c, s)
    && InFlight(s) <= c.inFlight
    && |s.entries| + |s.passed| <= c.limit + c.inFlight - 1
  }

  lemma {:induction false} KeepsOnlyOld(scores: seq<Score>, start: Score, low: Score)
    requires NoneOlderThan(scores, low)
    ensures NoneOlderThan(NewerThan(scores, start), low)
  {
    if scores != [] {
      KeepsOnlyOld(scores[..|scores| - 1], start, low);
    }
  }

  lemma PruneKeepsInv(c: Setting, s: System, i: nat)
    requires Inv(c, s) && i < |s.started|
    ensures Inv(c, Apply(c, s, Prune(i)))
  {
    var s' := Apply(c, s, Prune(i));
    forall p, e | 0 <= p < |s'.pruned| && 0 <= e < |s'.entries|
      ensures s'.entries[e] >= s'.pruned[p] - c.window
    {
      if p < |s.pruned| {
        KeepsOnlyOld(s.entries, s.started[i] - c.window, s.pruned[p] - c.window);
      }
    }
  }

  lemma CountKeepsInv(c: Setting, s: System, i: nat)
    requires Inv(c, s) && i < |s.pruned|
    ensures Inv(c, Apply(c, s, Count(i)))
  {
    CountAll(s.entries, s.pruned[i] - c.window);
  }

  lemma StepKeepsInv(c: Setting, s: System, step: Step)
    requires Inv(c, s) && c.window >= 0.0
    ensures Inv(c, Apply(c, s, step))
  {
    match step {
      case Prune(i) =>
        if i < |s.started| {
          PruneKeepsInv(c, s, i);
        }
      case Count(i) =>
        if i < |s.pruned| {
          CountKeepsInv(c, s, i);
        }
      case _ =>
    }
  }

  lemma {:induction false} InvHolds(c: Setting, steps: seq<Step>)
    requires c.inFlight >= 1 && c.window >= 0.0
    ensures Inv(c, Run(c, steps))
  {
    if steps != [] {
      InvHolds(c, steps[..|steps| - 1]);
      StepKeepsInv(c, Run(c, steps[..|steps| - 1]), steps[|steps| - 1]);
    }
  }

  /**
   In every interleaving, the stored entries and the requests about to be added exceed the limit by
   less than the number of requests in flight; one request at a time keeps the limit exactly.
  */
  lemma OvershootIsBounded(c: Setting, steps: seq<Step>)
    requires c.inFlight >= 1 && c.window >= 0.0
    ensures |Run(c, steps).entries| + |Run(c, steps).passed| <= c.limit + c.inFlight - 1
    ensures c.inFlight == 1 ==> |Run(c, steps).entries| <= c.limit
  {
    InvHolds(c, steps);
  }

  /** A request with nothing else in flight is one sequential call of the limiter. */
  lemma AloneIsSequential(c: Setting, s: System, deadline: Option<Score>)
    requires InFlight(s) == 0 && c.inFlight >= 1
    ensures var s' := Apply(c, Apply(c, Apply(c, Apply(c, s, Begin), Prune(0)), Count(0)), Add(0));
            && s'.entries == Decide(ZSet(s.entries, deadline), c.limit, c.window, s.clock, s.clock).1.scores
            && InFlight(s') == 0 && s'.clock == s.clock
  {
    var z := ZSet(s.entries, deadline);
    PrunedAlone(c, s, z);
    CountedAlone(c, Apply(c, Apply(c, s, Begin), Prune(0)), z);
  }

  lemma PrunedAlone(c: Setting, s: System, z: ZSet)
    requires InFlight(s) == 0 && c.inFlight >= 1 && z.scores == s.entries
    ensures Apply(c, Apply(c, s, Begin), Prune(0))
            == s.(entries := Pruned(z, s.clock - c.window).scores, started := [], pruned := [s.clock], passed := [])
  {
    PrunedScores(z, s.clock - c.window);
    assert Apply(c, s, Begin) == s.(started := [s.clock], pruned := [], passed := []);
  }

  lemma CountedAlone(c: Setting, s: System, z: ZSet)
    requires s.started == [] && s.pruned == [s.clock] && s.passed == []
    requires s.entries == Pruned(z, s.clock - c.window).scores
    ensures Apply(c, Apply(c, s, Count(0)), Add(0))
            == s.(pruned := [], entries := Decide(z, c.limit, c.window, s.clock, s.clock).1.scores)
  {
    assert Without(s.pruned, 0) == [];
    var s1 := Apply(c, s, Count(0));
    if CountFrom(s.entries, s.clock - c.window) >= c.limit {
      assert s1 == s.(pruned := []);
    } else {
      assert s1 == s.(pruned := [], passed := [s.clock]);
      assert Without([s.clock], 0) == [];
    }
  }

  // ---------------------------------------------------------------- the bound is attained

  function Zeros(n: nat): seq<Score> {
    seq(n, _ => 0.0)
  }

  lemma RunSnoc(c: Setting, steps: seq<Step>, step: Step)
    ensures Run(c, steps + [step]) == Apply(c, Run(c, steps), step)
  {
    assert (steps + [step])[..|steps|] == steps;
  }

  /** Everything happens at clock reading zero. */
  function AtZero(entries: nat, started: nat, pruned: nat, passed: nat): System {
    System(0.0, Zeros(entries), Zeros(started), Zeros(pruned), Zeros(passed))
  }

  lemma ZerosGrow(n: nat)
    ensures Zeros(n) + [0.0] == Zeros(n + 1)
    ensures n > 0 ==> Without(Zeros(n), n - 1) == Zeros(n - 1)
  {
  }

  lemma BeginAtZero(c: Setting, e: nat, s: nat, p: nat, q: nat)
    requires s + p + q < c.inFlight
    ensures Apply(c, AtZero(e, s, p, q), Begin) == AtZero(e, s + 1, p, q)
  {
    ZerosGrow(s);
  }

  lemma PruneAtZero(c: Setting, e: nat, s: nat, p: nat, q: nat)
    requires c.window > 0.0 && s > 0
    ensures Apply(c, AtZero(e, s, p, q), Prune(s - 1)) == AtZero(e, s - 1, p + 1, q)
  {
    AllNewer(Zeros(e), 0.0 - c.window);
    ZerosGrow(s);
    ZerosGrow(p);
  }

  lemma CountAtZero(c: Setting, e: nat, s: nat, p: nat, q: nat)
    requires c.window > 0.0 && p > 0 && e < c.limit
    ensures Apply(c, AtZero(e, s, p, q), Count(p - 1)) == AtZero(e, s, p - 1, q + 1)
  {
    CountAll(Zeros(e), 0.0 - c.window);
    ZerosGrow(p);
    ZerosGrow(q);
  }

  lemma AddAtZero(c: Setting, e: nat, s: nat, p: nat, q: nat)
    requires q > 0
    ensures Apply(c, AtZero(e, s, p, q), Add(q - 1)) == AtZero(e + 1, s, p, q - 1)
  {
    ZerosGrow(e);
    ZerosGrow(q);
  }

  /** One request runs from start to end with nothing else in flight. */
  lemma RunOneAlone(c: Setting, n: nat, before: seq<Step>) returns (steps: seq<Step>)
    requires Run(c, before) == AtZero(n, 0, 0, 0)
    requires n < c.limit && c.inFlight >= 1 && c.window > 0.0
    ensures Run(c, steps) == AtZero(n + 1, 0, 0, 0)
  {
    steps := PruneOneMore(c, n, 0, before);
    CountAtZero(c, n, 0, 1, 0);
    RunSnoc(c, steps, Count(0));
    steps := steps + [Count(0)];
    AddAtZero(c, n, 0, 0, 1);
    RunSnoc(c, steps, Add(0));
    steps := steps + [Add(0)];
  }

  lemma PruneOneMore(c: Setting, n: nat, m: nat, before: seq<Step>) returns (steps: seq<Step>)
    requires Run(c, before) == AtZero(n, 0, m, 0)
    requires m < c.inFlight && c.window > 0.0
    ensures Run(c, steps) == AtZero(n, 0, m + 1, 0)
  {
    BothAtZero(c, n, m);
    RunSnoc(c, before, Begin);
    RunSnoc(c, before + [Begin], Prune(0));
    steps := before + [Begin] + [Prune(0)];
  }

  lemma BothAtZero(c: Setting, n: nat, m: nat)
    requires m < c.inFlight && c.window > 0.0
    ensures Apply(c, Apply(c, AtZero(n, 0, m, 0), Begin), Prune(0)) == AtZero(n, 0, m + 1, 0)
  {
    BeginAtZero(c, n, 0, m, 0);
    PruneAtZero(c, n, 1, m, 0);
  }

  lemma {:induction false} FillTo(c: Setting, n: nat) returns (steps: seq<Step>)
    requires n <= c.limit && c.inFlight >= 1 && c.window > 0.0
    ensures Run(c, steps) == AtZero(n, 0, 0, 0)
  {
    if n == 0 {
      steps := [];
    } else {
      steps := FillTo(c, n - 1);
      steps := RunOneAlone(c, n - 1, steps);
    }
  }

  /** Every request that has room to fly prunes before any of them counts. */
  lemma {:induction false} PruneTogether(c: Setting, n: nat, m: nat) returns (steps: seq<Step>)
    requires n <= c.limit && 1 <= c.inFlight && m <= c.inFlight && c.window > 0.0
    ensures Run(c, steps) == AtZero(n, 0, m, 0)
  {
    if m == 0 {
      steps := FillTo(c, n);
    } else {
      steps := PruneTogether(c, n, m - 1);
      steps := PruneOneMore(c, n, m - 1, steps);
    }
  }

  lemma {:induction false} CountTogether(c: Setting, n: nat, m: nat, q: nat) returns (steps: seq<Step>)
    requires n < c.limit && 1 <= c.inFlight && m <= c.inFlight && q <= m && c.window > 0.0
    ensures Run(c, steps) == AtZero(n, 0, m - q, q)
    decreases q
  {
    if q == 0 {
      steps := PruneTogether(c, n, m);
    } else {
      steps := CountTogether(c, n, m, q - 1);
      CountAtZero(c, n, 0, m - q + 1, q - 1);
      RunSnoc(c, steps, Count(m - q));
      steps := steps + [Count(m - q)];
    }
  }

  /** The bound is exact: some interleaving reaches it, for every limit and every number in flight. */
  lemma OvershootIsReached(c: Setting)
    requires c.limit >= 1 && c.inFlight >= 1 && c.window > 0.0
    ensures exists steps :: |Run(c, steps).entries| + |Run(c, steps).passed| == c.limit + c.inFlight - 1
  {
    var steps := CountTogether(c, c.limit - 1, c.inFlight, c.inFlight);
    assert |Run(c, steps).entries| + |Run(c, steps).passed| == c.limit + c.inFlight - 1;
  }
}
