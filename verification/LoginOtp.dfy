/**
 Login codes: the one-row-per-user table, and every interleaving of requests that delete and create
 a code with logins that look one up and consume it.
*/
module LoginOtp {
  import opened Prelude
  import Sessions

  type UserId = nat
  type OtpId = nat
  /** SHA-512 of the code, taken to be injective: the hash stands for the code. */
  type OtpHash = string

  datatype Otp = Otp(id: OtpId, otpHash: OtpHash, createdAt: int, expiresAt: int, consumedAt: Option<int>)

  /** The CHECKs of login_otp.sql. */
  predicate OtpChecks(otp: Otp) {
    otp.expiresAt > otp.createdAt && (otp.consumedAt.Some? ==> otp.consumedAt.value >= otp.createdAt)
  }

  datatype CheckViolation = CheckViolation

  function Removed(rows: map<UserId, Otp>, user: UserId): (left: map<UserId, Otp>)
    ensures forall other :: other in left <==> other in rows && other != user
    ensures forall other | other in left :: left[other] == rows[other]
  {
    map other | other in rows && other != user :: rows[other]
  }

  function Consumed(otp: Otp, now: int): Otp {
    otp.(consumedAt := Some(now))
  }

  /** What a login may still consume: the user's row, unless it is consumed. */
  function Usable(rows: map<UserId, Otp>, user: UserId): Option<Otp> {
    if user in rows && rows[user].consumedAt == None then Some(rows[user]) else None
  }

  /** The row the consume of a transaction begun at `begun` may write: the user's usable row, if its CHECKs let it. */
  function Consumable(rows: map<UserId, Otp>, user: UserId, begun: int): Option<Otp> {
    match Usable(rows, user)
    case None => None
    case Some(otp) => if OtpChecks(Consumed(otp, begun)) then Some(otp) else None
  }

  /**
   One login as a whole, begun at `begun` and comparing the expiry with `readAt`: only an unexpired and
   right code is consumed, and only if the rest of the transaction completes.
  */
  function Authenticate(rows: map<UserId, Otp>, user: UserId, otpHash: OtpHash, begun: int, readAt: int, completes: bool)
    : (map<UserId, Otp>, Option<OtpId>)
  {
    match Consumable(rows, user, begun)
    case None => (rows, None)
    case Some(otp) =>
      if readAt < otp.expiresAt && otp.otpHash == otpHash && completes then (rows[user := Consumed(otp, begun)], Some(otp.id))
      else (rows, None)
  }

  // ------------------------------------------------------------------------------ the table

  class LoginOtpTable {
    var rows: map<UserId, Otp>

    constructor ()
      ensures rows == map[]
    {
      rows := map[];
    }

    /** INSERT under UNIQUE (user_id) and the CHECKs; `id` is the fresh UUID the row draws. */
    method CreateLoginOtp(user: UserId, id: OtpId, otpHash: OtpHash, now: int, expiresAt: int) returns (created: bool)
      modifies this
      ensures created <==> user !in old(rows) && now < expiresAt
      ensures rows == if created then old(rows)[user := Otp(id, otpHash, now, expiresAt, None)] else old(rows)
    {
      var otp := Otp(id, otpHash, now, expiresAt, None);
      created := user !in rows && OtpChecks(otp);
      if created {
        rows := rows[user := otp];
      }
    }

    method GetLoginOtp(user: UserId) returns (otp: Option<Otp>)
      ensures otp == Usable(rows, user)
      ensures otp == if user in rows && rows[user].consumedAt.None? then Some(rows[user]) else None
    {
      otp := if user in rows && rows[user].consumedAt == None then Some(rows[user]) else None;
    }

    /** UPDATE .. WHERE consumed_at IS NULL RETURNING *, with consumed_at = NOW(). */
    method ConsumeLoginOtp(user: UserId, now: int) returns (otp: Result<Option<Otp>, CheckViolation>)
      modifies this
      ensures Usable(old(rows), user) == None ==> otp == Ok(None) && rows == old(rows)
      ensures Usable(old(rows), user).Some? ==>
                var consumed := old(rows)[user].(consumedAt := Some(now));
                if now >= consumed.createdAt && consumed.expiresAt > consumed.createdAt then
                  otp == Ok(Some(consumed)) && rows == old(rows)[user := consumed]
                else otp == Err(CheckViolation) && rows == old(rows)
    {
      otp := Ok(None);
      if user in rows && rows[user].consumedAt == None {
        var consumed := Consumed(rows[user], now);
        if !OtpChecks(consumed) {
          return Err(CheckViolation);
        }
        rows := rows[user := consumed];
        otp := Ok(Some(consumed));
      }
    }

    method DeleteLoginOtp(user: UserId)
      modifies this
      ensures rows == Removed(old(rows), user)
    {
      rows := Removed(rows, user);
    }
  }

  /**
   authenticate_account, run without interruption: look the user and the code up, check expiry and
   hash, consume, find the workspace, insert the session. Whatever raises rolls all of it back.
  */
  method AuthenticateAccount(codes: LoginOtpTable, sessions: Sessions.SessionTable, user: Option<UserId>, otpHash: OtpHash,
                             begun: int, readAt: int, hasWorkspace: bool, sessionId: Sessions.SessionId,
                             tokenHash: Sessions.TokenHash, sessionExpiresAt: int)
    returns (loggedIn: Option<OtpId>)
    requires sessionId !in sessions.rows
    modifies codes, sessions
    ensures user.None? ==> loggedIn == None && codes.rows == old(codes.rows)
    ensures user.Some? ==>
              (codes.rows, loggedIn)
              == Authenticate(old(codes.rows), user.value, otpHash, begun, readAt,
                              hasWorkspace && Sessions.CanCreate(old(sessions.rows), tokenHash, begun, sessionExpiresAt))
    ensures loggedIn.Some? <==>
              && user.Some? && user.value in old(codes.rows) && hasWorkspace
              && var otp := old(codes.rows)[user.value];
                 && otp.consumedAt.None? && otp.otpHash == otpHash && readAt < otp.expiresAt
                 && otp.createdAt <= begun && otp.createdAt < otp.expiresAt
                 && begun < sessionExpiresAt
                 && forall other | other in old(sessions.rows) :: old(sessions.rows)[other].tokenHash != tokenHash
    ensures codes.rows
            == if loggedIn.Some? then old(codes.rows)[user.value := old(codes.rows)[user.value].(consumedAt := Some(begun))]
               else old(codes.rows)
    ensures loggedIn.Some? ==> loggedIn.value == old(codes.rows)[user.value].id
    ensures sessions.rows
            == if loggedIn.Some? then old(sessions.rows)[sessionId := Sessions.Session(tokenHash, begun, sessionExpiresAt, None)]
               else old(sessions.rows)
  {
    var saved := codes.rows;
    if user.None? {
      return None;
    }
    var otp := codes.GetLoginOtp(user.value);
    if otp.None? {
      return None;
    }
    if otp.value.expiresAt <= readAt {
      codes.DeleteLoginOtp(user.value);
      codes.rows := saved;
      return None;
    }
    if otp.value.otpHash != otpHash {
      return None;
    }
    var consumed := codes.ConsumeLoginOtp(user.value, begun);
    if consumed.Err? || consumed.value.None? || !hasWorkspace {
      codes.rows := saved;
      return None;
    }
    var created := sessions.CreateSession(sessionId, tokenHash, begun, sessionExpiresAt);
    if !created {
      codes.rows := saved;
      return None;
    }
    loggedIn := Some(consumed.value.value.id);
  }

  // --------------------------------------------------------------------------- the protocol

  /** What became of a code, in commit order. */
  datatype Event =
    | Created(user: UserId, id: OtpId)
    | Discarded(user: UserId, id: OtpId)   // deleted before anyone consumed it
    | LoggedIn(user: UserId, id: OtpId, presented: OtpId)   // consumed `id`, after checking `presented`

  type LoginId = nat

  /**
   A login that has checked a code and not consumed one yet, and the time its transaction began. The
   consume names the user only.
  */
  datatype Login = Login(user: UserId, presented: OtpId, begun: int)

  datatype System = System(
    now: int,
    rows: map<UserId, Otp>,
    nextId: OtpId,
    requesting: multiset<UserId>,   // requests between delete and create, each autocommitted
    verified: map<LoginId, Login>,  // logins between a successful check and the guarded consume
    nextLogin: LoginId,
    history: seq<Event>
  )

  datatype Step =
    | Tick(dt: nat)
    | RequestDeletes(user: UserId)
    | RequestCreates(user: UserId, otpHash: OtpHash, begun: int, expiresAt: int)   // an INSERT begun at `begun`
    | LoginVerifies(user: UserId, otpHash: OtpHash, begun: int)                    // in a transaction begun at `begun`
    | LoginConsumes(login: LoginId, completes: bool)

  const INITIAL := System(0, map[], 0, multiset{}, map[], 0, [])

  function ApplyDeletes(s: System, user: UserId): System {
    var s' := s.(rows := Removed(s.rows, user), requesting := s.requesting + multiset{user});
    match Usable(s.rows, user)
    case None => s'
    case Some(otp) => s'.(history := s.history + [Discarded(user, otp.id)])
  }

  /** UNIQUE (user_id) turns a second code away. */
  function ApplyCreates(s: System, user: UserId, otpHash: OtpHash, begun: int, expiresAt: int): System {
    if s.requesting[user] == 0 || begun > s.now then s
    else
      var otp := Otp(s.nextId, otpHash, begun, expiresAt, None);
      var s' := s.(requesting := s.requesting - multiset{user}, nextId := s.nextId + 1);
      if user in s.rows || !OtpChecks(otp) then s'
      else s'.(rows := s.rows[user := otp], history := s.history + [Created(user, s.nextId)])
  }

  /** A failed check, and the expired branch whose DELETE its own exception rolls back, change nothing. */
  function ApplyVerifies(s: System, user: UserId, otpHash: OtpHash, begun: int): System {
    match Usable(s.rows, user)
    case None => s
    case Some(otp) =>
      if begun > s.now || otp.expiresAt <= s.now || otp.otpHash != otpHash then s
      else s.(verified := s.verified[s.nextLogin := Login(user, otp.id, begun)], nextLogin := s.nextLogin + 1)
  }

  /**
   The guarded UPDATE takes whatever row is usable now, stamped with the time the transaction began; if
   a CHECK fails, or the rest of the transaction, it rolls back.
  */
  function ApplyConsumes(s: System, login: LoginId, completes: bool): System {
    if login !in s.verified then s
    else
      var Login(user, presented, begun) := s.verified[login];
      var s' := s.(verified := s.verified - {login});
      match Consumable(s.rows, user, begun)
      case None => s'
      case Some(otp) =>
        if !completes then s'
        else s'.(rows := s.rows[user := Consumed(otp, begun)], history := s.history + [LoggedIn(user, otp.id, presented)])
  }

  function Apply(s: System, step: Step): System {
    match step
    case Tick(dt) => s.(now := s.now + dt)
    case RequestDeletes(user) => ApplyDeletes(s, user)
    case RequestCreates(user, otpHash, begun, expiresAt) => ApplyCreates(s, user, otpHash, begun, expiresAt)
    case LoginVerifies(user, otpHash, begun) => ApplyVerifies(s, user, otpHash, begun)
    case LoginConsumes(login, completes) => ApplyConsumes(s, login, completes)
  }

  function RunFrom(s: System, steps: seq<Step>): System {
    if steps == [] then s else Apply(RunFrom(s, steps[..|steps| - 1]), steps[|steps| - 1])
  }

  function Run(steps: seq<Step>): System {
    RunFrom(INITIAL, steps)
  }

  lemma RunSnoc(s: System, steps: seq<Step>, step: Step)
    ensures RunFrom(s, steps + [step]) == Apply(RunFrom(s, steps), step)
  {
    assert (steps + [step])[..|steps|] == steps;
  }

  lemma {:induction false} RunConcat(s: System, first: seq<Step>, more: seq<Step>)
    ensures RunFrom(s, first + more) == RunFrom(RunFrom(s, first), more)
    decreases |more|
  {
    if more == [] {
      assert first + more == first;
    } else {
      var n := |more| - 1;
      assert (first + more)[..|first + more| - 1] == first + more[..n];
      RunConcat(s, first, more[..n]);
    }
  }

  /** A login that nothing interrupts is the whole of authenticate_account for its user. */
  lemma UninterruptedLogin(steps: seq<Step>, user: UserId, otpHash: OtpHash, begun: int, completes: bool)
    requires begun <= Run(steps).now
    ensures var s := Run(steps);
            var s' := Apply(Apply(s, LoginVerifies(user, otpHash, begun)), LoginConsumes(s.nextLogin, completes));
            var (rows, loggedIn) := Authenticate(s.rows, user, otpHash, begun, s.now, completes);
            && s'.rows == rows && s'.verified == s.verified
            && s'.history == s.history + (match loggedIn case None => [] case Some(id) => [LoggedIn(user, id, id)])
            && (loggedIn.Some? <==>
                  && user in s.rows && s.rows[user].consumedAt.None? && s.rows[user].otpHash == otpHash
                  && s.now < s.rows[user].expiresAt && completes
                  && s.rows[user].createdAt <= begun && s.rows[user].createdAt < s.rows[user].expiresAt)
            && (loggedIn.Some? ==>
                  loggedIn.value == s.rows[user].id && rows == s.rows[user := s.rows[user].(consumedAt := Some(begun))])
  {
    var s := Run(steps);
    DrawnHolds(steps);
    assert s.history + [] == s.history;
    assert s.verified[s.nextLogin := Login(user, 0, begun)] - {s.nextLogin} == s.verified;
  }

  /** Every login and every code so far was drawn before the next one. */
  ghost predicate Drawn(s: System) {
    && (forall login | login in s.verified :: login < s.nextLogin)
    && (forall user | user in s.rows :: s.rows[user].id < s.nextId)
  }

  lemma StepKeepsDrawn(s: System, step: Step)
    requires Drawn(s)
    ensures Drawn(Apply(s, step))
  {
  }

  lemma {:induction false} DrawnHolds(steps: seq<Step>)
    ensures Drawn(Run(steps))
  {
    if steps != [] {
      DrawnHolds(steps[..|steps| - 1]);
      StepKeepsDrawn(Run(steps[..|steps| - 1]), steps[|steps| - 1]);
    }
  }

  /** A login gets past its check exactly with the right hash of an unconsumed code that has not expired. */
  lemma VerifiesIff(s: System, user: UserId, otpHash: OtpHash, begun: int)
    requires begun <= s.now
    ensures var s' := Apply(s, LoginVerifies(user, otpHash, begun));
            && s'.rows == s.rows
            && if user in s.rows && s.rows[user].consumedAt.None? && s.rows[user].otpHash == otpHash && s.now < s.rows[user].expiresAt
               then s'.verified == s.verified[s.nextLogin := Login(user, s.rows[user].id, begun)]
               else s' == s
  {
  }

  datatype Kind = Creations | Discards | Logins

  predicate Counts(e: Event, user: UserId, kind: Kind) {
    e.user == user && match kind case Creations => e.Created? case Discards => e.Discarded? case Logins => e.LoggedIn?
  }

  function CountOf(history: seq<Event>, user: UserId, kind: Kind): nat {
    if history == [] then 0
    else CountOf(history[..|history| - 1], user, kind) + if Counts(history[|history| - 1], user, kind) then 1 else 0
  }

  lemma CountAppend(history: seq<Event>, e: Event, user: UserId, kind: Kind)
    ensures CountOf(history + [e], user, kind) == CountOf(history, user, kind) + if Counts(e, user, kind) then 1 else 0
  {
    assert (history + [e])[..|history|] == history;
  }

  function Unconsumed(s: System, user: UserId): nat {
    if Usable(s.rows, user).Some? then 1 else 0
  }

  /** Every code ever created for the user was used once, discarded once, or is still there. */
  ghost predicate Conserved(s: System, user: UserId) {
    CountOf(s.history, user, Creations)
    == CountOf(s.history, user, Logins) + CountOf(s.history, user, Discards) + Unconsumed(s, user)
  }

  /** One event more, and the matching change of the row. */
  lemma EventConserves(s: System, s': System, e: Event, user: UserId)
    requires Conserved(s, user) && s'.history == s.history + [e]
    requires Unconsumed(s', user) - Unconsumed(s, user)
             == (if Counts(e, user, Creations) then 1 else 0) - (if Counts(e, user, Logins) then 1 else 0)
                - (if Counts(e, user, Discards) then 1 else 0)
    ensures Conserved(s', user)
  {
    CountAppend(s.history, e, user, Creations);
    CountAppend(s.history, e, user, Discards);
    CountAppend(s.history, e, user, Logins);
  }

  lemma DeleteConserves(s: System, other: UserId, user: UserId)
    requires Conserved(s, user)
    ensures Conserved(ApplyDeletes(s, other), user)
  {
    if Usable(s.rows, other).Some? {
      EventConserves(s, ApplyDeletes(s, other), Discarded(other, s.rows[other].id), user);
    }
  }

  lemma CreateConserves(s: System, other: UserId, otpHash: OtpHash, begun: int, expiresAt: int, user: UserId)
    requires Conserved(s, user)
    ensures Conserved(ApplyCreates(s, other, otpHash, begun, expiresAt), user)
  {
    if s.requesting[other] > 0 && begun <= s.now && other !in s.rows && begun < expiresAt {
      EventConserves(s, ApplyCreates(s, other, otpHash, begun, expiresAt), Created(other, s.nextId), user);
    }
  }

  lemma ConsumeConserves(s: System, login: LoginId, completes: bool, user: UserId)
    requires Conserved(s, user)
    ensures Conserved(ApplyConsumes(s, login, completes), user)
  {
    if login in s.verified && completes && Consumable(s.rows, s.verified[login].user, s.verified[login].begun).Some? {
      var Login(other, presented, begun) := s.verified[login];
      EventConserves(s, ApplyConsumes(s, login, completes), LoggedIn(other, s.rows[other].id, presented), user);
    }
  }

  lemma StepConserves(s: System, step: Step, user: UserId)
    requires Conserved(s, user)
    ensures Conserved(Apply(s, step), user)
  {
    match step {
      case RequestDeletes(other) => DeleteConserves(s, other, user);
      case RequestCreates(other, otpHash, begun, expiresAt) => CreateConserves(s, other, otpHash, begun, expiresAt, user);
      case LoginConsumes(login, completes) => ConsumeConserves(s, login, completes, user);
      case _ =>
    }
  }

  lemma {:induction false} CodesAreConserved(steps: seq<Step>, user: UserId)
    ensures Conserved(Run(steps), user)
  {
    if steps != [] {
      CodesAreConserved(steps[..|steps| - 1], user);
      StepConserves(Run(steps[..|steps| - 1]), steps[|steps| - 1], user);
    }
  }

  /**
   In every interleaving, the successful logins of a user plus one if an unconsumed code exists
   never exceed the codes created for that user.
  */
  lemma LoginsNeverExceedCodes(steps: seq<Step>, user: UserId)
    ensures CountOf(Run(steps).history, user, Logins) + Unconsumed(Run(steps), user)
            <= CountOf(Run(steps).history, user, Creations)
  {
    CodesAreConserved(steps, user);
  }

  // --------------------------------------------------------------------- no row twice

  predicate Closes(e: Event) {
    e.LoggedIn? || e.Discarded?
  }

  function Closings(history: seq<Event>, id: OtpId): nat {
    if history == [] then 0
    else
      var e := history[|history| - 1];
      Closings(history[..|history| - 1], id) + if Closes(e) && e.id == id then 1 else 0
  }

  lemma ClosingsAppend(history: seq<Event>, e: Event, id: OtpId)
    ensures Closings(history + [e], id) == Closings(history, id) + if Closes(e) && e.id == id then 1 else 0
  {
    assert (history + [e])[..|history|] == history;
  }

  /** The rows that still offer this code. */
  function Offering(rows: map<UserId, Otp>, id: OtpId): set<UserId> {
    set user | user in rows && rows[user].id == id && rows[user].consumedAt == None
  }

  /** A code not yet drawn is nowhere; any other is offered by at most one row, and closed at most once, never both. */
  ghost predicate CodeInv(s: System, id: OtpId) {
    && (id >= s.nextId ==> Offering(s.rows, id) == {})
    && (id >= s.nextId ==> Closings(s.history, id) == 0)
    && (forall u, v | u in Offering(s.rows, id) && v in Offering(s.rows, id) :: u == v)
    && (Offering(s.rows, id) != {} ==> Closings(s.history, id) == 0)
    && Closings(s.history, id) <= 1
  }

  /** Closing the code a row offers takes the offer away. */
  lemma ClosingKeepsCodeInv(s: System, s': System, user: UserId, e: Event, id: OtpId)
    requires CodeInv(s, id) && Usable(s.rows, user).Some? && Closes(e) && e.id == s.rows[user].id
    requires s'.history == s.history + [e] && s'.nextId == s.nextId
    requires Offering(s'.rows, id) == Offering(s.rows, id) - {user}
    ensures CodeInv(s', id)
  {
    ClosingsAppend(s.history, e, id);
    if e.id == id {
      assert user in Offering(s.rows, id);
      assert Offering(s.rows, id) == {user};
    }
  }

  lemma CreatingKeepsCodeInv(s: System, s': System, user: UserId, otp: Otp, id: OtpId)
    requires CodeInv(s, id) && user !in s.rows && otp.id == s.nextId
    requires s'.rows == s.rows[user := otp] && s'.nextId == s.nextId + 1
    requires s'.history == s.history + [Created(user, otp.id)]
    ensures CodeInv(s', id)
  {
    ClosingsAppend(s.history, Created(user, otp.id), id);
    if id != otp.id {
      assert Offering(s'.rows, id) == Offering(s.rows, id);
    } else {
      assert Offering(s'.rows, id) <= {user};
    }
  }

  lemma DeleteKeepsCodeInv(s: System, user: UserId, id: OtpId)
    requires CodeInv(s, id)
    ensures CodeInv(ApplyDeletes(s, user), id)
  {
    var s' := ApplyDeletes(s, user);
    assert Offering(s'.rows, id) == Offering(s.rows, id) - {user};
    if Usable(s.rows, user).Some? {
      ClosingKeepsCodeInv(s, s', user, Discarded(user, s.rows[user].id), id);
    } else {
      assert Offering(s'.rows, id) == Offering(s.rows, id);
    }
  }

  lemma ConsumeKeepsCodeInv(s: System, login: LoginId, completes: bool, id: OtpId)
    requires CodeInv(s, id)
    ensures CodeInv(ApplyConsumes(s, login, completes), id)
  {
    if login in s.verified && completes && Consumable(s.rows, s.verified[login].user, s.verified[login].begun).Some? {
      var Login(user, presented, begun) := s.verified[login];
      var s' := ApplyConsumes(s, login, completes);
      assert Offering(s'.rows, id) == Offering(s.rows, id) - {user};
      ClosingKeepsCodeInv(s, s', user, LoggedIn(user, s.rows[user].id, presented), id);
    }
  }

  lemma StepKeepsCodeInv(s: System, step: Step, id: OtpId)
    requires CodeInv(s, id)
    ensures CodeInv(Apply(s, step), id)
  {
    match step {
      case RequestDeletes(user) => DeleteKeepsCodeInv(s, user, id);
      case RequestCreates(user, otpHash, begun, expiresAt) =>
        if s.requesting[user] > 0 && begun <= s.now && user !in s.rows && begun < expiresAt {
          CreatingKeepsCodeInv(s, ApplyCreates(s, user, otpHash, begun, expiresAt), user,
                               Otp(s.nextId, otpHash, begun, expiresAt, None), id);
        }
      case LoginConsumes(login, completes) => ConsumeKeepsCodeInv(s, login, completes, id);
      case _ =>
    }
  }

  lemma {:induction false} CodeInvHolds(steps: seq<Step>, id: OtpId)
    ensures CodeInv(Run(steps), id)
  {
    if steps != [] {
      CodeInvHolds(steps[..|steps| - 1], id);
      StepKeepsCodeInv(Run(steps[..|steps| - 1]), steps[|steps| - 1], id);
    }
  }

  lemma {:induction false} TwoClosings(history: seq<Event>, i: nat, j: nat, id: OtpId)
    requires i < |history| && Closes(history[i]) && history[i].id == id
    ensures Closings(history, id) >= 1
    ensures i < j < |history| && Closes(history[j]) && history[j].id == id ==> Closings(history, id) >= 2
    decreases |history|
  {
    var n := |history| - 1;
    if i < n {
      TwoClosings(history[..n], i, j, id);
    }
  }

  /** No row is consumed by two logins, and a row deleted unconsumed by none. */
  lemma EachRowIsClosedOnce(steps: seq<Step>, i: nat, j: nat)
    requires i < j < |Run(steps).history|
    requires Closes(Run(steps).history[i]) && Closes(Run(steps).history[j])
    ensures Run(steps).history[i].id != Run(steps).history[j].id
  {
    var history := Run(steps).history;
    CodeInvHolds(steps, history[i].id);
    TwoClosings(history, i, j, history[i].id);
  }

  // --------------------------------------------------- the code presented and the row consumed

  /** The row a login checked, after further steps: still there until the user's code is deleted, never back after. */
  ghost predicate RowAfter(s: System, user: UserId, presented: OtpId, deleted: bool) {
    && presented < s.nextId
    && if deleted then user in s.rows ==> s.rows[user].id > presented
       else user in s.rows && s.rows[user].id == presented
  }

  lemma RowAfterDelete(s: System, other: UserId, user: UserId, presented: OtpId, deleted: bool)
    requires RowAfter(s, user, presented, deleted)
    ensures RowAfter(ApplyDeletes(s, other), user, presented, deleted || other == user)
  {
  }

  lemma RowAfterCreate(s: System, other: UserId, otpHash: OtpHash, begun: int, expiresAt: int, user: UserId, presented: OtpId, deleted: bool)
    requires RowAfter(s, user, presented, deleted)
    ensures RowAfter(ApplyCreates(s, other, otpHash, begun, expiresAt), user, presented, deleted)
  {
  }

  lemma RowAfterConsume(s: System, login: LoginId, completes: bool, user: UserId, presented: OtpId, deleted: bool)
    requires RowAfter(s, user, presented, deleted)
    ensures RowAfter(ApplyConsumes(s, login, completes), user, presented, deleted)
  {
  }

  lemma RowAfterOneStep(s: System, step: Step, user: UserId, presented: OtpId, deleted: bool)
    requires RowAfter(s, user, presented, deleted)
    ensures RowAfter(Apply(s, step), user, presented, deleted || step == RequestDeletes(user))
  {
    match step {
      case RequestDeletes(other) => RowAfterDelete(s, other, user, presented, deleted);
      case RequestCreates(other, otpHash, begun, expiresAt) => RowAfterCreate(s, other, otpHash, begun, expiresAt, user, presented, deleted);
      case LoginConsumes(login, completes) => RowAfterConsume(s, login, completes, user, presented, deleted);
      case _ =>
        assert Apply(s, step).rows == s.rows;
    }
  }

  lemma LoginIsKeptInOneStep(s: System, step: Step, login: LoginId)
    requires login < s.nextLogin
    ensures var s' := Apply(s, step);
            login < s'.nextLogin && (login in s'.verified ==> login in s.verified && s'.verified[login] == s.verified[login])
  {
  }

  lemma {:induction false} RowIsKeptUntilDeleted(s: System, between: seq<Step>, user: UserId, login: LoginId)
    requires user in s.rows && s.rows[user].id < s.nextId && login < s.nextLogin && login in s.verified
    ensures var s' := RunFrom(s, between);
            && RowAfter(s', user, s.rows[user].id, RequestDeletes(user) in between)
            && login < s'.nextLogin
            && (login in s'.verified ==> s'.verified[login] == s.verified[login])
    decreases |between|
  {
    if between != [] {
      var n := |between| - 1;
      var mid := RunFrom(s, between[..n]);
      RowIsKeptUntilDeleted(s, between[..n], user, login);
      RowAfterOneStep(mid, between[n], user, s.rows[user].id, RequestDeletes(user) in between[..n]);
      LoginIsKeptInOneStep(mid, between[n], login);
      assert between == between[..n] + [between[n]];
    }
  }

  /** What a login finds to consume when its turn comes. */
  function Found(s: System, login: LoginId): Option<Otp> {
    if login in s.verified then Consumable(s.rows, s.verified[login].user, s.verified[login].begun) else None
  }

  /**
   A login that commits consumes the code it checked if and only if no deletion of the user's code lies
   between its check and its consume: the consume names the user, not the code.
  */
  lemma ConsumesPresentedIff(before: seq<Step>, user: UserId, otpHash: OtpHash, begun: int, between: seq<Step>)
    requires Run(before).nextLogin in Run(before + [LoginVerifies(user, otpHash, begun)]).verified
    requires Found(Run(before + [LoginVerifies(user, otpHash, begun)] + between), Run(before).nextLogin).Some?
    ensures var login := Run(before).nextLogin;
            var presented := Run(before + [LoginVerifies(user, otpHash, begun)]).verified[login].presented;
            var s' := Run(before + [LoginVerifies(user, otpHash, begun)] + between);
            var consumed := Found(s', login).value.id;
            && Usable(Run(before).rows, user).Some? && Usable(Run(before).rows, user).value.id == presented
            && Apply(s', LoginConsumes(login, true)).history == s'.history + [LoggedIn(user, consumed, presented)]
            && (consumed == presented <==> RequestDeletes(user) !in between)
  {
    var verified := before + [LoginVerifies(user, otpHash, begun)];
    DrawnHolds(before);
    RunSnoc(INITIAL, before, LoginVerifies(user, otpHash, begun));
    RunConcat(INITIAL, verified, between);
    RowIsKeptUntilDeleted(Run(verified), between, user, Run(before).nextLogin);
  }

  /** Every code created in these steps is stamped later than `begun`. */
  predicate CreatedAfter(between: seq<Step>, begun: int) {
    forall k :: 0 <= k < |between| && between[k].RequestCreates? ==> between[k].begun > begun
  }

  lemma {:induction false} ReplacementsAreLate(s: System, between: seq<Step>, user: UserId, begun: int)
    requires CreatedAfter(between, begun)
    ensures var s' := RunFrom(s, between);
            RequestDeletes(user) in between && user in s'.rows ==> s'.rows[user].createdAt > begun
    decreases |between|
  {
    if between != [] {
      var n := |between| - 1;
      ReplacementsAreLate(s, between[..n], user, begun);
      LateInOneStep(RunFrom(s, between[..n]), between[n], user, begun, RequestDeletes(user) in between[..n]);
      assert between == between[..n] + [between[n]];
    }
  }

  lemma LateInOneStep(s: System, step: Step, user: UserId, begun: int, deleted: bool)
    requires deleted && user in s.rows ==> s.rows[user].createdAt > begun
    requires step.RequestCreates? ==> step.begun > begun
    ensures var s' := Apply(s, step);
            (deleted || step == RequestDeletes(user)) && user in s'.rows ==> s'.rows[user].createdAt > begun
  {
  }

  /**
   So a login whose code was deleted in the meantime does not commit at all, as long as every code
   created since is stamped later than the login began: the CHECK on consumed_at refuses the newer row.
  */
  lemma ReplacementIsRefused(before: seq<Step>, user: UserId, otpHash: OtpHash, begun: int, between: seq<Step>)
    requires Run(before).nextLogin in Run(before + [LoginVerifies(user, otpHash, begun)]).verified
    requires RequestDeletes(user) in between && CreatedAfter(between, begun)
    ensures Found(Run(before + [LoginVerifies(user, otpHash, begun)] + between), Run(before).nextLogin) == None
  {
    var verified := before + [LoginVerifies(user, otpHash, begun)];
    DrawnHolds(before);
    RunSnoc(INITIAL, before, LoginVerifies(user, otpHash, begun));
    RunConcat(INITIAL, verified, between);
    RowIsKeptUntilDeleted(Run(verified), between, user, Run(before).nextLogin);
    ReplacementsAreLate(Run(verified), between, user, begun);
  }

  /** A code is stamped later than every login of its user that has checked a code and not yet consumed one. */
  predicate StampedLate(s: System, step: Step) {
    step.RequestCreates? ==>
      forall login | login in s.verified && s.verified[login].user == step.user :: s.verified[login].begun < step.begun
  }

  ghost predicate AllStampedLate(steps: seq<Step>) {
    forall k :: 0 <= k < |steps| ==> StampedLate(Run(steps[..k]), steps[k])
  }

  /** A login still finds the code it checked, or a row its consume may not write, or none; and so far no other was consumed. */
  ghost predicate PromiseKept(s: System) {
    && (forall login | login in s.verified && s.verified[login].user in s.rows ::
          var row := s.rows[s.verified[login].user];
          row.id == s.verified[login].presented || row.createdAt > s.verified[login].begun)
    && (forall k :: 0 <= k < |s.history| && s.history[k].LoggedIn? ==> s.history[k].id == s.history[k].presented)
  }

  lemma StepKeepsPromise(s: System, step: Step)
    requires PromiseKept(s) && StampedLate(s, step)
    ensures PromiseKept(Apply(s, step))
  {
  }

  lemma {:induction false} PromiseHolds(steps: seq<Step>)
    requires AllStampedLate(steps)
    ensures PromiseKept(Run(steps))
  {
    if steps != [] {
      var n := |steps| - 1;
      assert forall k :: 0 <= k < n ==> steps[..n][..k] == steps[..k] && steps[..n][k] == steps[k];
      PromiseHolds(steps[..n]);
      assert StampedLate(Run(steps[..n]), steps[n]);
      StepKeepsPromise(Run(steps[..n]), steps[n]);
    }
  }

  /** While codes are stamped late, a login consumes the very code it checked, no code serves two logins, and a deleted one none. */
  lemma CodeServesOneLogin(steps: seq<Step>, i: nat, j: nat)
    requires AllStampedLate(steps)
    requires i < |Run(steps).history| && Run(steps).history[i].LoggedIn?
    requires j < |Run(steps).history| && Closes(Run(steps).history[j]) && i != j
    ensures Run(steps).history[i].id == Run(steps).history[i].presented
    ensures Run(steps).history[j].id != Run(steps).history[i].presented
  {
    PromiseHolds(steps);
    EachRowIsClosedOnce(steps, if i < j then i else j, if i < j then j else i);
  }

  function Requested(user: UserId, otpHash: OtpHash): seq<Step> {
    [RequestDeletes(user), RequestCreates(user, otpHash, 0, 100)]
  }

  /** The end of the code a deletion finds unconsumed. */
  function DiscardOf(rows: map<UserId, Otp>, user: UserId): seq<Event> {
    match Usable(rows, user) case None => [] case Some(otp) => [Discarded(user, otp.id)]
  }

  /** What a request that nothing interrupts leaves, at clock reading zero: a new code, whatever was there. */
  function AfterRequest(s: System, user: UserId, otpHash: OtpHash): System {
    s.(rows := s.rows[user := Otp(s.nextId, otpHash, 0, 100, None)], nextId := s.nextId + 1,
       history := s.history + DiscardOf(s.rows, user) + [Created(user, s.nextId)])
  }

  lemma DeletedThenCreated(s: System, user: UserId, otpHash: OtpHash)
    requires s.now == 0
    ensures Apply(Apply(s, RequestDeletes(user)), RequestCreates(user, otpHash, 0, 100)) == AfterRequest(s, user, otpHash)
  {
    assert s.history + [] == s.history;
    assert s.requesting + multiset{user} - multiset{user} == s.requesting;
    assert Removed(s.rows, user)[user := Otp(s.nextId, otpHash, 0, 100, None)] == s.rows[user := Otp(s.nextId, otpHash, 0, 100, None)];
  }

  lemma RequestedCode(steps: seq<Step>, user: UserId, otpHash: OtpHash)
    requires Run(steps).now == 0
    ensures Run(steps + Requested(user, otpHash)) == AfterRequest(Run(steps), user, otpHash)
  {
    DeletedThenCreated(Run(steps), user, otpHash);
    RunSnoc(INITIAL, steps, RequestDeletes(user));
    RunSnoc(INITIAL, steps + [RequestDeletes(user)], RequestCreates(user, otpHash, 0, 100));
    assert steps + Requested(user, otpHash) == steps + [RequestDeletes(user)] + [RequestCreates(user, otpHash, 0, 100)];
  }

  function Waiting(logins: nat): map<LoginId, Login> {
    if logins == 0 then map[] else Waiting(logins - 1)[logins - 1 := Login(7, 0, 0)]
  }

  /** A first code, checked by `logins` logins. */
  function Checked(logins: nat): System {
    System(0, map[7 := Otp(0, "A", 0, 100, None)], 1, multiset{},
           Waiting(logins), logins, [Created(7, 0)])
  }

  lemma {:induction false} CheckedReachable(logins: nat) returns (steps: seq<Step>)
    ensures Run(steps) == Checked(logins)
  {
    if logins == 0 {
      RequestedCode([], 7, "A");
      assert [] + Requested(7, "A") == Requested(7, "A");
      steps := Requested(7, "A");
    } else {
      steps := CheckedReachable(logins - 1);
      RunSnoc(INITIAL, steps, LoginVerifies(7, "A", 0));
      steps := steps + [LoginVerifies(7, "A", 0)];
    }
  }

  /**
   At one reading of the clock the CHECK does not help: a code checked by two logins lets both in, the
   second by consuming a code requested later.
  */
  lemma OneCodeServesTwoReachable() returns (steps: seq<Step>)
    ensures Run(steps).history == [Created(7, 0), LoggedIn(7, 0, 0), Created(7, 1), LoggedIn(7, 1, 0)]
  {
    steps := CheckedReachable(2);
    RunSnoc(INITIAL, steps, LoginConsumes(0, true));
    steps := steps + [LoginConsumes(0, true)];
    assert Run(steps).history == [Created(7, 0), LoggedIn(7, 0, 0)];
    RequestedCode(steps, 7, "B");
    steps := steps + Requested(7, "B");
    assert Run(steps).history == [Created(7, 0), LoggedIn(7, 0, 0), Created(7, 1)];
    RunSnoc(INITIAL, steps, LoginConsumes(1, true));
    steps := steps + [LoginConsumes(1, true)];
  }

  lemma ReplacementConsumed(s: System)
    requires s == AfterRequest(Checked(1), 7, "B")
    ensures Apply(s, LoginConsumes(0, true)).history == [Created(7, 0), Discarded(7, 0), Created(7, 1), LoggedIn(7, 1, 0)]
  {
    assert s.history == [Created(7, 0), Discarded(7, 0), Created(7, 1)];
  }

  /** And a code checked before it was replaced still logs in, by consuming its replacement. */
  lemma ReplacedCodeLogsInReachable() returns (steps: seq<Step>)
    ensures Run(steps).history == [Created(7, 0), Discarded(7, 0), Created(7, 1), LoggedIn(7, 1, 0)]
  {
    steps := CheckedReachable(1);
    RequestedCode(steps, 7, "B");
    steps := steps + Requested(7, "B");
    ReplacementConsumed(Run(steps));
    RunSnoc(INITIAL, steps, LoginConsumes(0, true));
    steps := steps + [LoginConsumes(0, true)];
  }
}
