/**
 otp_rate_limit: three sliding windows checked in order, each recording the request before the next
 is asked, for every flow and email on one Redis server. Requests of different subjects overlap in
 any way; those of one flow and email come one at a time.
*/
module OtpLimiter {
  import opened Prelude
  import opened SlidingWindow

  datatype Flow = Login | Registration

  datatype Level = Cooldown | Hour | Day

  function Limit(level: Level): nat {
    match level case Cooldown => 1 case Hour => 5 case Day => 20
  }

  function Window(level: Level): Score {
    match level case Cooldown => 30.0 case Hour => 3600.0 case Day => 86400.0
  }

  function Prefix(flow: Flow, level: Level): string {
    match (flow, level)
    case (Login, Cooldown) => "otp:login:cooldown:"
    case (Login, Hour) => "otp:login:hour:"
    case (Login, Day) => "otp:login:day:"
    case (Registration, Cooldown) => "otp:register:cooldown:"
    case (Registration, Hour) => "otp:register:hour:"
    case (Registration, Day) => "otp:register:day:"
  }

  /** The six key builders. */
  function OtpKey(flow: Flow, level: Level, email: string): string {
    Prefix(flow, level) + email
  }

  /** Two keys are equal only when flow, window and email are: no email can forge another's key. */
  lemma KeysNeverCollide(f1: Flow, l1: Level, e1: string, f2: Flow, l2: Level, e2: string)
    ensures OtpKey(f1, l1, e1) == OtpKey(f2, l2, e2) <==> f1 == f2 && l1 == l2 && e1 == e2
  {
    var k1, k2 := OtpKey(f1, l1, e1), OtpKey(f2, l2, e2);
    if f1 != f2 {
      assert k1[4] == Prefix(f1, l1)[4] && k2[4] == Prefix(f2, l2)[4];
    } else if l1 != l2 {
      var at := if f1 == Login then 10 else 13;
      assert k1[at] == Prefix(f1, l1)[at] && k2[at] == Prefix(f2, l2)[at];
    } else if k1 == k2 {
      assert e1 == k1[|Prefix(f1, l1)|..] && e2 == k2[|Prefix(f2, l2)|..];
    }
  }

  // -------------------------------------------------------------------------- the program

  /** Whose requests share their limits. */
  datatype Subject = Subject(flow: Flow, email: string)

  function KeyOf(x: Subject, level: Level): string {
    OtpKey(x.flow, level, x.email)
  }

  type Store = map<string, ZSet>

  /** The stored sets, and the window each subject's request asks next; a new request asks the cooldown. */
  datatype Server = Server(store: Store, next: map<Subject, Level>)

  const EMPTY := Server(map[], map[])

  function SetAt(store: Store, key: string): ZSet {
    if key in store then store[key] else ABSENT
  }

  function NextOf(s: Server, x: Subject): Level {
    if x in s.next then s.next[x] else Cooldown
  }

  function Following(level: Level, allowed: bool): Level {
    if !allowed || level == Day then Cooldown else if level == Cooldown then Hour else Day
  }

  /** One subject's request takes its next turn: one call of the limiter. */
  function Turn(s: Server, x: Subject, now: Score, settled: Score): (bool, Server) {
    var level := NextOf(s, x);
    var (allowed, z) := Decide(SetAt(s.store, KeyOf(x, level)), Limit(level), Window(level), now, settled);
    (allowed, Server(s.store[KeyOf(x, level) := z], s.next[x := Following(level, allowed)]))
  }

  /** The clock reading of one call, and the server's clock at its EXPIRE. */
  datatype Timing = Timing(now: Score, settled: Score)

  datatype Timings = Timings(cooldown: Timing, hour: Timing, day: Timing)

  /** A whole request that nothing interrupts: up to three turns, the first refusal ends it. */
  function RateLimit(s: Server, x: Subject, t: Timings): (bool, Server) {
    var (cooldownOk, s1) := Turn(s, x, t.cooldown.now, t.cooldown.settled);
    if !cooldownOk then (false, s1)
    else
      var (hourOk, s2) := Turn(s1, x, t.hour.now, t.hour.settled);
      if !hourOk then (false, s2) else Turn(s2, x, t.day.now, t.day.settled)
  }

  /** `redis` holds the same sets as `store`, under every key. */
  ghost predicate Holds(redis: RedisServer, store: Store)
    reads redis
  {
    forall key :: redis.Key(key) == SetAt(store, key)
  }

  method RunTurn(redis: RedisServer, x: Subject, level: Level, t: Timing, ghost s: Server) returns (allowed: bool)
    requires Holds(redis, s.store) && NextOf(s, x) == level
    modifies redis
    ensures allowed == Turn(s, x, t.now, t.settled).0
    ensures Holds(redis, Turn(s, x, t.now, t.settled).1.store)
  {
    allowed := redis.SlidingWindowLimiter(KeyOf(x, level), Limit(level), Window(level), t.now, t.settled);
  }

  method OtpRateLimit(redis: RedisServer, flow: Flow, email: string, t: Timings, ghost s: Server) returns (allowed: bool)
    requires Holds(redis, s.store) && NextOf(s, Subject(flow, email)) == Cooldown
    modifies redis
    ensures allowed == RateLimit(s, Subject(flow, email), t).0
    ensures Holds(redis, RateLimit(s, Subject(flow, email), t).1.store)
    ensures NextOf(RateLimit(s, Subject(flow, email), t).1, Subject(flow, email)) == Cooldown
  {
    var x := Subject(flow, email);
    var cooldownOk := RunTurn(redis, x, Cooldown, t.cooldown, s);
    if !cooldownOk {
      return false;
    }
    ghost var s1 := Turn(s, x, t.cooldown.now, t.cooldown.settled).1;
    var hourOk := RunTurn(redis, x, Hour, t.hour, s1);
    if !hourOk {
      return false;
    }
    allowed := RunTurn(redis, x, Day, t.day, Turn(s1, x, t.hour.now, t.hour.settled).1);
  }

  // ------------------------------------------------------------------------ the reference

  function Rank(level: Level): nat {
    match level case Cooldown => 1 case Hour => 2 case Day => 3
  }

  function LevelAt(passed: nat): Level {
    if passed == 0 then Cooldown else if passed == 1 then Hour else Day
  }

  /**
   Everything one subject ever asked: for each request the clock readings of the windows it passed, in
   order, and the same for the request under way.
  */
  datatype Ref = Ref(past: seq<seq<Score>>, open: seq<Score>)

  /** The readings, at one window, of the requests that got past window `through`. */
  function RecordedBy(requests: seq<seq<Score>>, through: Level, readAt: Level): seq<Score>
    requires Rank(readAt) <= Rank(through)
  {
    if requests == [] then []
    else
      var n := |requests| - 1;
      RecordedBy(requests[..n], through, readAt) + if |requests[n]| >= Rank(through) then [requests[n][Rank(readAt) - 1]] else []
  }

  function Requests(ref: Ref): seq<seq<Score>> {
    ref.past + [ref.open]
  }

  /** What a window has recorded: the readings it let pass. */
  function History(ref: Ref, level: Level): seq<Score> {
    RecordedBy(Requests(ref), level, level)
  }

  /** The next turn of a limiter that forgets nothing and knows only this subject. */
  function NaiveTurn(ref: Ref, now: Score): (bool, Ref) {
    var level := LevelAt(|ref.open|);
    if !NaiveAllows(History(ref, level), Limit(level), Window(level), now) then (false, Ref(ref.past + [ref.open], []))
    else if level == Day then (true, Ref(ref.past + [ref.open + [now]], []))
    else (true, Ref(ref.past, ref.open + [now]))
  }

  function Reference(readings: seq<Score>): Ref {
    if readings == [] then Ref([], [])
    else NaiveTurn(Reference(readings[..|readings| - 1]), readings[|readings| - 1]).1
  }

  // ------------------------------------------- turns of all subjects, in any order, and expiries

  datatype Event =
    | TakesTurn(x: Subject, now: Score, settled: Score)
    | DeadlineChecked(x: Subject, level: Level, now: Score)

  function ApplyEvent(s: Server, e: Event): Server {
    match e
    case TakesTurn(x, now, settled) => Turn(s, x, now, settled).1
    case DeadlineChecked(x, level, now) => s.(store := s.store[KeyOf(x, level) := Fired(SetAt(s.store, KeyOf(x, level)), now)])
  }

  function ServerAfter(events: seq<Event>): Server {
    if events == [] then EMPTY else ApplyEvent(ServerAfter(events[..|events| - 1]), events[|events| - 1])
  }

  function ReadingsOf(events: seq<Event>, x: Subject): seq<Score> {
    if events == [] then []
    else
      var e := events[|events| - 1];
      ReadingsOf(events[..|events| - 1], x) + if e.TakesTurn? && e.x == x then [e.now] else []
  }

  function RefOf(events: seq<Event>, x: Subject): Ref {
    Reference(ReadingsOf(events, x))
  }

  function EndOf(e: Event): Score {
    match e case TakesTurn(_, _, settled) => settled case DeadlineChecked(_, _, now) => now
  }

  /** The turns of one subject, and the expiries of its keys, come one after the other; nothing is asked of any other. */
  ghost predicate OneAtATime(events: seq<Event>, x: Subject) {
    && (forall i :: 0 <= i < |events| && events[i].x == x ==> events[i].now <= EndOf(events[i]))
    && (forall i, j :: 0 <= i < j < |events| && events[i].x == x && events[j].x == x ==> EndOf(events[i]) <= events[j].now)
  }

  /** By `at`, everything the subject started had ended. */
  ghost predicate EndedBy(events: seq<Event>, x: Subject, at: Score) {
    forall i :: 0 <= i < |events| && events[i].x == x ==> EndOf(events[i]) <= at
  }

  lemma OneAtATimeBefore(events: seq<Event>, n: nat, x: Subject)
    requires OneAtATime(events, x) && n < |events|
    ensures OneAtATime(events[..n], x)
    ensures events[n].x == x ==> EndedBy(events[..n], x, events[n].now)
  {
    assert forall i :: 0 <= i < n ==> events[..n][i] == events[i];
  }

  ghost predicate LevelAgrees(s: Server, ref: Ref, x: Subject, level: Level, last: Score) {
    Faithful(Trace(SetAt(s.store, KeyOf(x, level)), History(ref, level)), Window(level), last)
  }

  /** The stored sets of one subject stand for its full histories, and its request is where the reference has it. */
  ghost predicate Agrees(s: Server, ref: Ref, x: Subject, last: Score) {
    && |ref.open| < 3 && NextOf(s, x) == LevelAt(|ref.open|)
    && LevelAgrees(s, ref, x, Cooldown, last)
    && LevelAgrees(s, ref, x, Hour, last)
    && LevelAgrees(s, ref, x, Day, last)
  }

  lemma FaithfulLater(t: Trace, window: Score, last: Score, later: Score)
    requires Faithful(t, window, last) && last <= later
    ensures Faithful(t, window, later)
  {
  }

  lemma LevelAgreesLater(s: Server, s': Server, ref: Ref, ref': Ref, x: Subject, level: Level, last: Score, later: Score)
    requires LevelAgrees(s, ref, x, level, last) && last <= later
    requires SetAt(s'.store, KeyOf(x, level)) == SetAt(s.store, KeyOf(x, level)) && History(ref', level) == History(ref, level)
    ensures LevelAgrees(s', ref', x, level, later)
  {
    FaithfulLater(Trace(SetAt(s.store, KeyOf(x, level)), History(ref, level)), Window(level), last, later);
  }

  lemma AgreesLater(s: Server, ref: Ref, x: Subject, last: Score, later: Score)
    requires Agrees(s, ref, x, last) && last <= later
    ensures Agrees(s, ref, x, later)
  {
    forall level: Level
      ensures LevelAgrees(s, ref, x, level, later)
    {
      assert LevelAgrees(s, ref, x, level, last);
      LevelAgreesLater(s, s, ref, ref, x, level, last, later);
    }
  }

  lemma RecordedSnoc(requests: seq<seq<Score>>, r: seq<Score>, through: Level, readAt: Level)
    requires Rank(readAt) <= Rank(through)
    ensures RecordedBy(requests + [r], through, readAt)
            == RecordedBy(requests, through, readAt) + if |r| >= Rank(through) then [r[Rank(readAt) - 1]] else []
  {
    assert (requests + [r])[..|requests|] == requests;
  }

  /** A turn that passes is recorded at its own window, and nothing else is recorded anywhere. */
  lemma TurnRecords(ref: Ref, now: Score, level: Level)
    requires |ref.open| < 3
    ensures var (allowed, ref') := NaiveTurn(ref, now);
            History(ref', level) == History(ref, level) + if allowed && level == LevelAt(|ref.open|) then [now] else []
  {
    TurnRecordsThrough(ref, now, level, level);
  }

  lemma NothingUnderWay(past: seq<seq<Score>>, through: Level, readAt: Level)
    requires Rank(readAt) <= Rank(through)
    ensures RecordedBy(past + [[]], through, readAt) == RecordedBy(past, through, readAt)
  {
    RecordedSnoc(past, [], through, readAt);
    assert RecordedBy(past, through, readAt) + [] == RecordedBy(past, through, readAt);
  }

  /** The same for requests recorded through a window, read at that window or an earlier one. */
  lemma TurnRecordsThrough(ref: Ref, now: Score, through: Level, readAt: Level)
    requires |ref.open| < 3 && Rank(readAt) <= Rank(through)
    ensures var (allowed, ref') := NaiveTurn(ref, now);
            RecordedBy(Requests(ref'), through, readAt)
            == RecordedBy(Requests(ref), through, readAt)
               + if allowed && through == LevelAt(|ref.open|) then [(ref.open + [now])[Rank(readAt) - 1]] else []
  {
    PassRecords(ref.past, ref.open, now, through, readAt);
    NothingUnderWay(ref.past + [ref.open], through, readAt);
    NothingUnderWay(ref.past + [ref.open + [now]], through, readAt);
    Unchanged(RecordedBy(Requests(ref), through, readAt));
  }

  lemma Unchanged(recorded: seq<Score>)
    ensures recorded + [] == recorded
  {
  }

  /** One more window passed is one more reading recorded there. */
  lemma PassRecords(past: seq<seq<Score>>, open: seq<Score>, now: Score, through: Level, readAt: Level)
    requires |open| < 3 && Rank(readAt) <= Rank(through)
    ensures RecordedBy(past + [open + [now]], through, readAt)
            == RecordedBy(past + [open], through, readAt)
               + if through == LevelAt(|open|) then [(open + [now])[Rank(readAt) - 1]] else []
  {
    RecordedSnoc(past, open, through, readAt);
    RecordedSnoc(past, open + [now], through, readAt);
    NextLevel(|open|, through);
    var before := RecordedBy(past, through, readAt);
    if |open| >= Rank(through) {
      assert (open + [now])[Rank(readAt) - 1] == open[Rank(readAt) - 1];
      Unchanged(before + [open[Rank(readAt) - 1]]);
    } else {
      Unchanged(before);
    }
  }

  lemma NextLevel(passed: nat, through: Level)
    requires passed < 3
    ensures through == LevelAt(passed) <==> passed + 1 == Rank(through)
  {
  }

  /** The window whose turn it is decides as the reference does. */
  lemma OwnLevelAgrees(s: Server, ref: Ref, x: Subject, last: Score, now: Score, settled: Score)
    requires Agrees(s, ref, x, last) && last <= now <= settled
    ensures var (allowed, s') := Turn(s, x, now, settled);
            var (naive, ref') := NaiveTurn(ref, now);
            allowed == naive && LevelAgrees(s', ref', x, NextOf(s, x), settled)
  {
    var level := NextOf(s, x);
    var t := Trace(SetAt(s.store, KeyOf(x, level)), History(ref, level));
    assert LevelAgrees(s, ref, x, level, last);
    DecideIsNaive(t, Limit(level), Window(level), last, now, settled);
    CallKeepsFaithful(t, Limit(level), Window(level), last, now, settled);
    TurnRecords(ref, now, level);
    assert t.admitted + [] == t.admitted;
  }

  lemma OtherLevelAgrees(s: Server, ref: Ref, x: Subject, last: Score, now: Score, settled: Score, other: Level)
    requires Agrees(s, ref, x, last) && last <= now <= settled && other != NextOf(s, x)
    ensures LevelAgrees(Turn(s, x, now, settled).1, NaiveTurn(ref, now).1, x, other, settled)
  {
    KeysNeverCollide(x.flow, NextOf(s, x), x.email, x.flow, other, x.email);
    TurnRecords(ref, now, other);
    assert History(ref, other) + [] == History(ref, other);
    assert LevelAgrees(s, ref, x, other, last);
    LevelAgreesLater(s, Turn(s, x, now, settled).1, ref, NaiveTurn(ref, now).1, x, other, last, settled);
  }

  /** A subject's turn keeps it in agreement. */
  lemma TurnAgrees(s: Server, ref: Ref, x: Subject, last: Score, now: Score, settled: Score)
    requires Agrees(s, ref, x, last) && last <= now <= settled
    ensures var (allowed, s') := Turn(s, x, now, settled);
            var (naive, ref') := NaiveTurn(ref, now);
            allowed == naive && Agrees(s', ref', x, settled)
  {
    OwnLevelAgrees(s, ref, x, last, now, settled);
    forall level: Level
      ensures LevelAgrees(Turn(s, x, now, settled).1, NaiveTurn(ref, now).1, x, level, settled)
    {
      if level != NextOf(s, x) {
        OtherLevelAgrees(s, ref, x, last, now, settled, level);
      }
    }
  }

  /** An event of one subject touches no key of another, nor its request. */
  lemma EventKeepsOthers(s: Server, e: Event, x: Subject)
    requires e.x != x
    ensures NextOf(ApplyEvent(s, e), x) == NextOf(s, x)
    ensures forall level: Level :: SetAt(ApplyEvent(s, e).store, KeyOf(x, level)) == SetAt(s.store, KeyOf(x, level))
  {
    forall level: Level
      ensures SetAt(ApplyEvent(s, e).store, KeyOf(x, level)) == SetAt(s.store, KeyOf(x, level))
    {
      KeysNeverCollide(e.x.flow, if e.TakesTurn? then NextOf(s, e.x) else e.level, e.x.email, x.flow, level, x.email);
    }
  }

  lemma OthersKeepAgreement(s: Server, ref: Ref, e: Event, x: Subject, last: Score)
    requires Agrees(s, ref, x, last) && e.x != x
    ensures Agrees(ApplyEvent(s, e), ref, x, last)
  {
    EventKeepsOthers(s, e, x);
    LevelAgreesLater(s, ApplyEvent(s, e), ref, ref, x, Cooldown, last, last);
    LevelAgreesLater(s, ApplyEvent(s, e), ref, ref, x, Hour, last, last);
    LevelAgreesLater(s, ApplyEvent(s, e), ref, ref, x, Day, last, last);
  }

  lemma ExpiryKeepsLevel(s: Server, ref: Ref, e: Event, level: Level, last: Score)
    requires e.DeadlineChecked? && LevelAgrees(s, ref, e.x, level, last) && last <= e.now
    ensures LevelAgrees(ApplyEvent(s, e), ref, e.x, level, e.now)
  {
    if level == e.level {
      FireKeepsFaithful(Trace(SetAt(s.store, KeyOf(e.x, level)), History(ref, level)), Window(level), last, e.now);
    } else {
      KeysNeverCollide(e.x.flow, e.level, e.x.email, e.x.flow, level, e.x.email);
      LevelAgreesLater(s, ApplyEvent(s, e), ref, ref, e.x, level, last, e.now);
    }
  }

  lemma ExpiryAgrees(s: Server, ref: Ref, e: Event, last: Score)
    requires e.DeadlineChecked? && Agrees(s, ref, e.x, last) && last <= e.now
    ensures Agrees(ApplyEvent(s, e), ref, e.x, e.now)
  {
    ExpiryKeepsLevel(s, ref, e, Cooldown, last);
    ExpiryKeepsLevel(s, ref, e, Hour, last);
    ExpiryKeepsLevel(s, ref, e, Day, last);
  }

  lemma RefOfSnoc(events: seq<Event>, x: Subject)
    requires events != []
    ensures var e := events[|events| - 1];
            var before := RefOf(events[..|events| - 1], x);
            RefOf(events, x) == if e.TakesTurn? && e.x == x then NaiveTurn(before, e.now).1 else before
  {
    var readings := ReadingsOf(events[..|events| - 1], x);
    var e := events[|events| - 1];
    assert readings + [] == readings;
    assert (readings + [e.now])[..|readings|] == readings;
  }

  lemma NothingRecorded(level: Level)
    ensures History(Ref([], []), level) == []
  {
    RecordedSnoc([], [], level, level);
  }

  lemma NothingAskedAgrees(x: Subject, at: Score)
    ensures Agrees(EMPTY, Ref([], []), x, at)
  {
    NothingRecorded(Cooldown);
    NothingRecorded(Hour);
    NothingRecorded(Day);
  }

  lemma EventAgrees(events: seq<Event>, x: Subject, at: Score)
    requires events != [] && OneAtATime(events, x) && EndedBy(events, x, at)
    requires var e := events[|events| - 1];
             Agrees(ServerAfter(events[..|events| - 1]), RefOf(events[..|events| - 1], x), x, if e.x == x then e.now else at)
    ensures Agrees(ServerAfter(events), RefOf(events, x), x, at)
  {
    var e := events[|events| - 1];
    var s, ref := ServerAfter(events[..|events| - 1]), RefOf(events[..|events| - 1], x);
    RefOfSnoc(events, x);
    if e.x != x {
      OthersKeepAgreement(s, ref, e, x, at);
    } else {
      if e.TakesTurn? {
        TurnAgrees(s, ref, x, e.now, e.now, e.settled);
      } else {
        ExpiryAgrees(s, ref, e, e.now);
      }
      AgreesLater(ServerAfter(events), RefOf(events, x), x, EndOf(e), at);
    }
  }

  /** Whatever the traffic and the expiries, a subject's stored sets stand for the histories of its own requests. */
  lemma {:induction false} StoreStandsForHistories(events: seq<Event>, x: Subject, at: Score)
    requires OneAtATime(events, x) && EndedBy(events, x, at)
    ensures Agrees(ServerAfter(events), RefOf(events, x), x, at)
    decreases |events|
  {
    if events == [] {
      NothingAskedAgrees(x, at);
    } else {
      var n := |events| - 1;
      OneAtATimeBefore(events, n, x);
      StoreStandsForHistories(events[..n], x, if events[n].x == x then events[n].now else at);
      EventAgrees(events, x, at);
    }
  }

  /**
   Every turn of a subject whose own requests come one at a time, whatever the other subjects do in
   between and whenever its keys expire between its turns, is decided as by the reference that was
   fed this subject's clock readings alone.
  */
  lemma TrafficNeverInterferes(events: seq<Event>, i: nat)
    requires i < |events| && events[i].TakesTurn? && OneAtATime(events[..i + 1], events[i].x)
    ensures var TakesTurn(x, now, settled) := events[i];
            Turn(ServerAfter(events[..i]), x, now, settled).0 == NaiveTurn(RefOf(events[..i], x), now).0
  {
    var TakesTurn(x, now, settled) := events[i];
    OneAtATimeBefore(events[..i + 1], i, x);
    assert events[..i + 1][..i] == events[..i];
    StoreStandsForHistories(events[..i], x, now);
    TurnAgrees(ServerAfter(events[..i]), RefOf(events[..i], x), x, now, now, settled);
  }

  // --------------------------------------------------------------------- bounds on requests

  predicate Subsequence(a: seq<Score>, b: seq<Score>) {
    if a == [] then true
    else if b == [] then false
    else
      || (a[|a| - 1] == b[|b| - 1] && Subsequence(a[..|a| - 1], b[..|b| - 1]))
      || Subsequence(a, b[..|b| - 1])
  }

  /** What a later window recorded, every earlier window recorded too. */
  lemma {:induction false} RecordsAreNested(requests: seq<seq<Score>>, inner: Level, outer: Level, readAt: Level)
    requires Rank(readAt) <= Rank(outer) <= Rank(inner)
    ensures Subsequence(RecordedBy(requests, inner, readAt), RecordedBy(requests, outer, readAt))
    decreases |requests|
  {
    if requests != [] {
      var n := |requests| - 1;
      RecordsAreNested(requests[..n], inner, outer, readAt);
      var a, b := RecordedBy(requests[..n], inner, readAt), RecordedBy(requests[..n], outer, readAt);
      if |requests[n]| >= Rank(outer) {
        var t := requests[n][Rank(readAt) - 1];
        assert (a + [t])[..|a|] == a && (b + [t])[..|b|] == b;
      }
      assert a + [] == a && b + [] == b;
    }
  }

  lemma {:induction false} FewerCounted(a: seq<Score>, b: seq<Score>, low: Score, high: Score, closedLow: bool)
    requires Subsequence(a, b)
    ensures CountWithin(a, low, high, closedLow) <= CountWithin(b, low, high, closedLow)
    decreases |b|
  {
    if a != [] {
      if a[|a| - 1] == b[|b| - 1] && Subsequence(a[..|a| - 1], b[..|b| - 1]) {
        FewerCounted(a[..|a| - 1], b[..|b| - 1], low, high, closedLow);
      } else {
        FewerCounted(a, b[..|b| - 1], low, high, closedLow);
      }
    }
  }

  ghost predicate LevelSpaced(ref: Ref, level: Level) {
    Spaced(History(ref, level), Limit(level), Window(level)) && Sorted(History(ref, level))
  }

  lemma TurnKeepsSpaced(s: Server, ref: Ref, x: Subject, now: Score, level: Level)
    requires Agrees(s, ref, x, now) && LevelSpaced(ref, level)
    ensures LevelSpaced(NaiveTurn(ref, now).1, level)
  {
    TurnRecords(ref, now, level);
    assert LevelAgrees(s, ref, x, level, now);
    var h := History(ref, level);
    if level == LevelAt(|ref.open|) && NaiveAllows(h, Limit(level), Window(level), now) {
      AdmissionKeepsSpaced(h, Limit(level), Window(level), now);
    } else {
      assert h + [] == h;
    }
  }

  lemma AdmissionKeepsSpaced(h: seq<Score>, limit: nat, window: Score, now: Score)
    requires Spaced(h, limit, window) && Sorted(h) && NaiveAllows(h, limit, window, now)
    requires forall i :: 0 <= i < |h| ==> h[i] <= now
    ensures Spaced(h + [now], limit, window) && Sorted(h + [now])
  {
    NewAdmissionIsSpaced(h, limit, window, now);
  }

  lemma {:induction false} HistoriesAreSpaced(events: seq<Event>, x: Subject, level: Level)
    requires OneAtATime(events, x)
    ensures LevelSpaced(RefOf(events, x), level)
    decreases |events|
  {
    if events == [] {
      NothingRecorded(level);
    } else {
      var n := |events| - 1;
      var e := events[n];
      OneAtATimeBefore(events, n, x);
      HistoriesAreSpaced(events[..n], x, level);
      RefOfSnoc(events, x);
      if e.TakesTurn? && e.x == x {
        StoreStandsForHistories(events[..n], x, e.now);
        TurnKeepsSpaced(ServerAfter(events[..n]), RefOf(events[..n], x), x, e.now, level);
      }
    }
  }

  lemma RecordedAreBounded(events: seq<Event>, x: Subject, level: Level, low: Score, closedLow: bool)
    requires OneAtATime(events, x)
    ensures var allowed := RecordedBy(Requests(RefOf(events, x)), Day, level);
            CountWithin(allowed, low, low + Window(level), closedLow) <= Limit(level)
  {
    var ref := RefOf(events, x);
    HistoriesAreSpaced(events, x, level);
    SpacedCount(History(ref, level), Limit(level), Window(level), low, closedLow);
    RecordsAreNested(Requests(ref), Day, level, level);
    FewerCounted(RecordedBy(Requests(ref), Day, level), History(ref, level), low, low + Window(level), closedLow);
  }

  // ------------------------------------------------------------- what a request is answered

  /** The clock readings of one whole request. */
  datatype Readings = Readings(cooldown: Score, hour: Score, day: Score)

  /** The readings with which the request under way has passed so far, by the server's own answers. */
  function OpenOf(events: seq<Event>, x: Subject): seq<Score> {
    if events == [] then []
    else
      var e := events[|events| - 1];
      var before := events[..|events| - 1];
      if !e.TakesTurn? || e.x != x then OpenOf(before, x)
      else if Turn(ServerAfter(before), x, e.now, e.settled).0 && NextOf(ServerAfter(before), x) != Day then
        OpenOf(before, x) + [e.now]
      else []
  }

  /** The requests answered true: the server let the third window pass, after the first two. */
  function Answered(events: seq<Event>, x: Subject): seq<Readings> {
    if events == [] then []
    else
      var e := events[|events| - 1];
      var before := events[..|events| - 1];
      var open := OpenOf(before, x);
      if e.TakesTurn? && e.x == x && |open| == 2 && Turn(ServerAfter(before), x, e.now, e.settled).0 then
        Answered(before, x) + [Readings(open[0], open[1], e.now)]
      else Answered(before, x)
  }

  function ReadingOf(r: Readings, level: Level): Score {
    match level case Cooldown => r.cooldown case Hour => r.hour case Day => r.day
  }

  function ReadAt(answered: seq<Readings>, level: Level): seq<Score> {
    seq(|answered|, i requires 0 <= i < |answered| => ReadingOf(answered[i], level))
  }

  lemma ReadAtSnoc(answered: seq<Readings>, r: Readings, level: Level)
    ensures ReadAt(answered + [r], level) == ReadAt(answered, level) + [ReadingOf(r, level)]
  {
  }

  lemma {:induction false} OpenMatchesNext(events: seq<Event>, x: Subject)
    ensures |OpenOf(events, x)| < 3 && NextOf(ServerAfter(events), x) == LevelAt(|OpenOf(events, x)|)
    decreases |events|
  {
    if events != [] {
      OpenMatchesNext(events[..|events| - 1], x);
    }
  }

  /** What a turn adds to the requests recorded at the day window: its own, if it passes there. */
  lemma TurnRecordsAtDay(ref: Ref, now: Score, level: Level)
    requires |ref.open| < 3
    ensures var (allowed, ref') := NaiveTurn(ref, now);
            RecordedBy(Requests(ref'), Day, level)
            == RecordedBy(Requests(ref), Day, level)
               + if allowed && |ref.open| == 2 then [(ref.open + [now])[Rank(level) - 1]] else []
  {
    TurnRecordsThrough(ref, now, Day, level);
  }

  lemma OwnTurnAnswers(events: seq<Event>, x: Subject, level: Level)
    requires events != [] && OneAtATime(events, x)
    requires var e := events[|events| - 1]; e.TakesTurn? && e.x == x
    requires var before := events[..|events| - 1];
             && OpenOf(before, x) == RefOf(before, x).open
             && ReadAt(Answered(before, x), level) == RecordedBy(Requests(RefOf(before, x)), Day, level)
    ensures OpenOf(events, x) == RefOf(events, x).open
    ensures ReadAt(Answered(events, x), level) == RecordedBy(Requests(RefOf(events, x)), Day, level)
  {
    var n := |events| - 1;
    var e := events[n];
    var ref := RefOf(events[..n], x);
    OneAtATimeBefore(events, n, x);
    OpenMatchesNext(events[..n], x);
    StoreStandsForHistories(events[..n], x, e.now);
    RefOfSnoc(events, x);
    OpenFollows(ServerAfter(events[..n]), ref, x, e.now, e.settled);
    AnswersFollow(ref, e.now, Answered(events[..n], x), level);
  }

  lemma OpenFollows(s: Server, ref: Ref, x: Subject, now: Score, settled: Score)
    requires Agrees(s, ref, x, now) && now <= settled
    ensures Turn(s, x, now, settled).0 == NaiveTurn(ref, now).0
    ensures (if Turn(s, x, now, settled).0 && NextOf(s, x) != Day then ref.open + [now] else []) == NaiveTurn(ref, now).1.open
  {
    OwnLevelAgrees(s, ref, x, now, now, settled);
  }

  lemma AnswersFollow(ref: Ref, now: Score, answered: seq<Readings>, level: Level)
    requires |ref.open| < 3 && ReadAt(answered, level) == RecordedBy(Requests(ref), Day, level)
    ensures var (allowed, ref') := NaiveTurn(ref, now);
            ReadAt(if |ref.open| == 2 && allowed then answered + [Readings(ref.open[0], ref.open[1], now)] else answered, level)
            == RecordedBy(Requests(ref'), Day, level)
  {
    TurnRecordsAtDay(ref, now, level);
    var recorded := RecordedBy(Requests(ref), Day, level);
    assert recorded + [] == recorded;
    if |ref.open| == 2 {
      ReadAtSnoc(answered, Readings(ref.open[0], ref.open[1], now), level);
    }
  }

  /** The requests answered true are those the reference records at the day window. */
  lemma {:induction false} AnsweredIffRecorded(events: seq<Event>, x: Subject, level: Level)
    requires OneAtATime(events, x)
    ensures OpenOf(events, x) == RefOf(events, x).open
    ensures ReadAt(Answered(events, x), level) == RecordedBy(Requests(RefOf(events, x)), Day, level)
    decreases |events|
  {
    if events == [] {
      RecordedSnoc([], [], Day, level);
    } else {
      var n := |events| - 1;
      OneAtATimeBefore(events, n, x);
      AnsweredIffRecorded(events[..n], x, level);
      if events[n].TakesTurn? && events[n].x == x {
        OwnTurnAnswers(events, x, level);
      } else {
        RefOfSnoc(events, x);
      }
    }
  }

  /** The turns a whole request takes: the first refusal is the last. */
  function TurnsOf(s: Server, x: Subject, t: Timings): seq<Event> {
    var (cooldownOk, s1) := Turn(s, x, t.cooldown.now, t.cooldown.settled);
    var first := [TakesTurn(x, t.cooldown.now, t.cooldown.settled)];
    var second := first + [TakesTurn(x, t.hour.now, t.hour.settled)];
    if !cooldownOk then first
    else if !Turn(s1, x, t.hour.now, t.hour.settled).0 then second
    else second + [TakesTurn(x, t.day.now, t.day.settled)]
  }

  lemma EventsSnoc(events: seq<Event>, e: Event)
    requires e.TakesTurn?
    ensures var s := ServerAfter(events);
            var (ok, s') := Turn(s, e.x, e.now, e.settled);
            && ServerAfter(events + [e]) == s'
            && OpenOf(events + [e], e.x) == (if ok && NextOf(s, e.x) != Day then OpenOf(events, e.x) + [e.now] else [])
            && Answered(events + [e], e.x)
               == (if ok && |OpenOf(events, e.x)| == 2
                   then Answered(events, e.x) + [Readings(OpenOf(events, e.x)[0], OpenOf(events, e.x)[1], e.now)]
                   else Answered(events, e.x))
  {
    assert (events + [e])[..|events|] == events;
  }

  /** The turns of a request that has passed its first window. */
  lemma HourOnwards(events: seq<Event>, x: Subject, t: Timings)
    requires NextOf(ServerAfter(events), x) == Hour && OpenOf(events, x) == [t.cooldown.now]
    ensures var h, d := TakesTurn(x, t.hour.now, t.hour.settled), TakesTurn(x, t.day.now, t.day.settled);
            var (hourOk, s2) := Turn(ServerAfter(events), x, h.now, h.settled);
            var (dayOk, s3) := Turn(s2, x, d.now, d.settled);
            if !hourOk then ServerAfter(events + [h]) == s2 && Answered(events + [h], x) == Answered(events, x)
            else
              && ServerAfter(events + [h] + [d]) == s3
              && Answered(events + [h] + [d], x)
                 == (if dayOk then Answered(events, x) + [Readings(t.cooldown.now, h.now, d.now)] else Answered(events, x))
  {
    var h := TakesTurn(x, t.hour.now, t.hour.settled);
    EventsSnoc(events, h);
    if Turn(ServerAfter(events), x, h.now, h.settled).0 {
      EventsSnoc(events + [h], TakesTurn(x, t.day.now, t.day.settled));
    }
  }

  lemma CooldownFirst(events: seq<Event>, x: Subject, t: Timings)
    requires NextOf(ServerAfter(events), x) == Cooldown
    ensures var c := TakesTurn(x, t.cooldown.now, t.cooldown.settled);
            var (ok, s1) := Turn(ServerAfter(events), x, c.now, c.settled);
            && ServerAfter(events + [c]) == s1 && Answered(events + [c], x) == Answered(events, x)
            && (ok ==> NextOf(s1, x) == Hour && OpenOf(events + [c], x) == [c.now])
  {
    OpenMatchesNext(events, x);
    EventsSnoc(events, TakesTurn(x, t.cooldown.now, t.cooldown.settled));
  }

  /**
   A whole request answers true if and only if it thereby becomes one of the requests whose third
   window the server let pass.
  */
  lemma AnswerIsCounted(events: seq<Event>, x: Subject, t: Timings)
    requires NextOf(ServerAfter(events), x) == Cooldown
    ensures var s := ServerAfter(events);
            var (answer, s') := RateLimit(s, x, t);
            && ServerAfter(events + TurnsOf(s, x, t)) == s'
            && Answered(events + TurnsOf(s, x, t), x)
               == (if answer then Answered(events, x) + [Readings(t.cooldown.now, t.hour.now, t.day.now)] else Answered(events, x))
  {
    var s := ServerAfter(events);
    var c := TakesTurn(x, t.cooldown.now, t.cooldown.settled);
    CooldownFirst(events, x, t);
    if Turn(s, x, c.now, c.settled).0 {
      HourOnwards(events + [c], x, t);
      TurnsAssociate(events, c, TakesTurn(x, t.hour.now, t.hour.settled), TakesTurn(x, t.day.now, t.day.settled));
    }
  }

  lemma TurnsAssociate(events: seq<Event>, c: Event, h: Event, d: Event)
    ensures events + ([c] + [h]) == events + [c] + [h]
    ensures events + ([c] + [h] + [d]) == events + [c] + [h] + [d]
  {
  }

  /**
   And it answers true if and only if all three windows would let it pass on what the subject's own
   requests had recorded: at most none in 30 seconds, 4 in an hour and 19 in a day before it.
  */
  lemma AnswerIsAllThree(events: seq<Event>, x: Subject, t: Timings)
    requires OneAtATime(events, x) && EndedBy(events, x, t.cooldown.now)
    requires t.cooldown.now <= t.cooldown.settled <= t.hour.now <= t.hour.settled <= t.day.now <= t.day.settled
    requires NextOf(ServerAfter(events), x) == Cooldown
    ensures var ref := RefOf(events, x);
            RateLimit(ServerAfter(events), x, t).0
            <==>
            && NaiveAllows(History(ref, Cooldown), 1, 30.0, t.cooldown.now)
            && NaiveAllows(History(ref, Hour), 5, 3600.0, t.hour.now)
            && NaiveAllows(History(ref, Day), 20, 86400.0, t.day.now)
  {
    StoreStandsForHistories(events, x, t.cooldown.now);
    ThreeTurns(ServerAfter(events), RefOf(events, x), x, t);
  }

  /** A turn answers as the reference does, and leaves the later windows' histories alone. */
  lemma TurnAnswers(s: Server, ref: Ref, x: Subject, last: Score, now: Score, settled: Score, later: Level)
    requires Agrees(s, ref, x, last) && last <= now <= settled && later != NextOf(s, x)
    ensures var (allowed, s') := Turn(s, x, now, settled);
            var (naive, ref') := NaiveTurn(ref, now);
            && allowed == naive
            && allowed == NaiveAllows(History(ref, NextOf(s, x)), Limit(NextOf(s, x)), Window(NextOf(s, x)), now)
            && History(ref', later) == History(ref, later)
  {
    TurnAgrees(s, ref, x, last, now, settled);
    TurnRecords(ref, now, later);
    assert History(ref, later) + [] == History(ref, later);
  }

  lemma DayTurn(s: Server, ref: Ref, x: Subject, last: Score, now: Score, settled: Score)
    requires Agrees(s, ref, x, last) && last <= now <= settled && NextOf(s, x) == Day
    ensures Turn(s, x, now, settled).0 <==> NaiveAllows(History(ref, Day), 20, 86400.0, now)
  {
    TurnAnswers(s, ref, x, last, now, settled, Cooldown);
  }

  lemma HourTurns(s: Server, ref: Ref, x: Subject, last: Score, hour: Timing, day: Timing)
    requires Agrees(s, ref, x, last) && NextOf(s, x) == Hour
    requires last <= hour.now <= hour.settled <= day.now <= day.settled
    ensures var (hourOk, s2) := Turn(s, x, hour.now, hour.settled);
            (hourOk && Turn(s2, x, day.now, day.settled).0)
            <==>
            NaiveAllows(History(ref, Hour), 5, 3600.0, hour.now) && NaiveAllows(History(ref, Day), 20, 86400.0, day.now)
  {
    var (hourOk, s2) := Turn(s, x, hour.now, hour.settled);
    TurnAnswers(s, ref, x, last, hour.now, hour.settled, Day);
    if hourOk {
      TurnAgrees(s, ref, x, last, hour.now, hour.settled);
      DayTurn(s2, NaiveTurn(ref, hour.now).1, x, hour.settled, day.now, day.settled);
    }
  }

  lemma ThreeTurns(s: Server, ref: Ref, x: Subject, t: Timings)
    requires Agrees(s, ref, x, t.cooldown.now) && NextOf(s, x) == Cooldown
    requires t.cooldown.now <= t.cooldown.settled <= t.hour.now <= t.hour.settled <= t.day.now <= t.day.settled
    ensures RateLimit(s, x, t).0
            <==>
            && NaiveAllows(History(ref, Cooldown), 1, 30.0, t.cooldown.now)
            && NaiveAllows(History(ref, Hour), 5, 3600.0, t.hour.now)
            && NaiveAllows(History(ref, Day), 20, 86400.0, t.day.now)
  {
    var (cooldownOk, s1) := Turn(s, x, t.cooldown.now, t.cooldown.settled);
    TurnAnswers(s, ref, x, t.cooldown.now, t.cooldown.now, t.cooldown.settled, Hour);
    if cooldownOk {
      TurnAnswers(s, ref, x, t.cooldown.now, t.cooldown.now, t.cooldown.settled, Day);
      TurnAgrees(s, ref, x, t.cooldown.now, t.cooldown.now, t.cooldown.settled);
      HourTurns(s1, NaiveTurn(ref, t.cooldown.now).1, x, t.cooldown.settled, t.hour, t.day);
    }
  }

  lemma AnsweredAreBounded(events: seq<Event>, x: Subject, level: Level, low: Score, closedLow: bool)
    requires OneAtATime(events, x)
    ensures CountWithin(ReadAt(Answered(events, x), level), low, low + Window(level), closedLow) <= Limit(level)
  {
    AnsweredIffRecorded(events, x, level);
    RecordedAreBounded(events, x, level, low, closedLow);
  }

  /**
   Of one flow and email, at most 1 OTP request in any 30 seconds, 5 in any hour and 20 in any day
   is answered true, whatever else the server sees.
  */
  lemma OtpRequestsAreBounded(events: seq<Event>, x: Subject, low: Score, closedLow: bool)
    requires OneAtATime(events, x)
    ensures CountWithin(ReadAt(Answered(events, x), Cooldown), low, low + 30.0, closedLow) <= 1
    ensures CountWithin(ReadAt(Answered(events, x), Hour), low, low + 3600.0, closedLow) <= 5
    ensures CountWithin(ReadAt(Answered(events, x), Day), low, low + 86400.0, closedLow) <= 20
  {
    AnsweredAreBounded(events, x, Cooldown, low, closedLow);
    AnsweredAreBounded(events, x, Hour, low, closedLow);
    AnsweredAreBounded(events, x, Day, low, closedLow);
  }
}
