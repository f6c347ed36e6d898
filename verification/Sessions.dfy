/**
 Refresh tokens: the sessions table, and every interleaving of logins, refreshes and logouts whose
 lookups and UPDATEs are separate steps.
*/
module Sessions {
  import opened Prelude

  type SessionId = nat
  /** `secrets.token_urlsafe`: no two draws are equal. SHA-512 is taken to be injective on tokens. */
  type Token = nat
  datatype TokenHash = Sha512(token: Token)

  datatype Session = Session(tokenHash: TokenHash, createdAt: int, expiresAt: int, revokedAt: Option<int>)

  /** The CHECKs of sessions.sql. */
  predicate SessionChecks(s: Session) {
    s.expiresAt > s.createdAt && (s.revokedAt.Some? ==> s.revokedAt.value >= s.createdAt)
  }

  type Table = map<SessionId, Session>

  /** SELECT .. WHERE refresh_token_hash = $1 AND revoked_at IS NULL, as the rows it can return. */
  function Found(rows: Table, token: Token): set<SessionId> {
    set id | id in rows && rows[id].tokenHash == Sha512(token) && rows[id].revokedAt == None
  }

  /** UNIQUE (refresh_token_hash), revoked rows included. */
  predicate HashIsUnused(rows: Table, hash: TokenHash, except: set<SessionId>) {
    forall id | id in rows && id !in except :: rows[id].tokenHash != hash
  }

  predicate CanCreate(rows: Table, hash: TokenHash, now: int, expiresAt: int) {
    HashIsUnused(rows, hash, {}) && SessionChecks(Session(hash, now, expiresAt, None))
  }

  function Rotated(s: Session, hash: TokenHash, expiresAt: int): Session {
    s.(tokenHash := hash, expiresAt := expiresAt)
  }

  function Revoked(s: Session, now: int): Session {
    s.(revokedAt := Some(now))
  }

  /** The rotation's UPDATE matches a row, and what it writes breaks no constraint. */
  predicate CanRotate(rows: Table, id: SessionId, hash: TokenHash, expiresAt: int) {
    && id in rows && rows[id].revokedAt == None && HashIsUnused(rows, hash, {id})
    && SessionChecks(Rotated(rows[id], hash, expiresAt))
  }

  predicate CanRevoke(rows: Table, id: SessionId, now: int) {
    id in rows && rows[id].revokedAt == None && SessionChecks(Revoked(rows[id], now))
  }

  // ------------------------------------------------------------------------------ the table

  class SessionTable {
    var rows: Table

    constructor ()
      ensures rows == map[]
    {
      rows := map[];
    }

    method CreateSession(id: SessionId, hash: TokenHash, now: int, expiresAt: int) returns (created: bool)
      requires id !in rows
      modifies this
      ensures created <==> now < expiresAt && forall other | other in old(rows) :: old(rows)[other].tokenHash != hash
      ensures rows == if created then old(rows)[id := Session(hash, now, expiresAt, None)] else old(rows)
    {
      created := CanCreate(rows, hash, now, expiresAt);
      if created {
        rows := rows[id := Session(hash, now, expiresAt, None)];
      }
    }

    method GetSessionByToken(token: Token) returns (id: Option<SessionId>)
      ensures id.None? ==> Found(rows, token) == {}
      ensures id.Some? ==> id.value in Found(rows, token)
      ensures id.None? <==> forall other | other in rows :: rows[other].tokenHash != Sha512(token) || rows[other].revokedAt.Some?
      ensures id.Some? ==>
                id.value in rows && rows[id.value].tokenHash == Sha512(token) && rows[id.value].revokedAt.None?
    {
      var found := Found(rows, token);
      assert forall other | other in rows && rows[other].tokenHash == Sha512(token) && rows[other].revokedAt.None? :: other in found;
      if found == {} {
        return None;
      }
      var some :| some in found;
      id := Some(some);
    }

    /** UPDATE .. WHERE id = $1 AND revoked_at IS NULL RETURNING *; false when no row matches or a constraint fails. */
    method RotateSession(id: SessionId, hash: TokenHash, expiresAt: int) returns (rotated: bool)
      modifies this
      ensures rotated <==> CanRotate(old(rows), id, hash, expiresAt)
      ensures rotated <==>
                && id in old(rows) && old(rows)[id].revokedAt.None? && old(rows)[id].createdAt < expiresAt
                && forall other | other in old(rows) && other != id :: old(rows)[other].tokenHash != hash
      ensures rows == if rotated then old(rows)[id := old(rows)[id].(tokenHash := hash, expiresAt := expiresAt)] else old(rows)
    {
      rotated := CanRotate(rows, id, hash, expiresAt);
      if rotated {
        rows := rows[id := Rotated(rows[id], hash, expiresAt)];
      }
    }

    method RevokeSession(id: SessionId, now: int) returns (revoked: bool)
      modifies this
      ensures revoked <==> CanRevoke(old(rows), id, now)
      ensures revoked <==> && id in old(rows) && old(rows)[id].revokedAt.None?
                           && old(rows)[id].createdAt <= now && old(rows)[id].createdAt < old(rows)[id].expiresAt
      ensures rows == if revoked then old(rows)[id := old(rows)[id].(revokedAt := Some(now))] else old(rows)
    {
      revoked := CanRevoke(rows, id, now);
      if revoked {
        rows := rows[id := Revoked(rows[id], now)];
      }
    }

    /**
     refresh_access_token, run without interruption in a transaction begun at `begun`; the expired branch
     rolls its revocation back.
    */
    method RefreshAccessToken(token: Token, replacement: Token, begun: int, readAt: int, expiresAt: int, userExists: bool)
      returns (refreshed: Option<SessionId>)
      requires HashIsUnused(rows, Sha512(replacement), {})
      modifies this
      ensures refreshed.Some? ==>
                && userExists && refreshed.value in old(rows)
                && var s := old(rows)[refreshed.value];
                   && s.tokenHash == Sha512(token) && s.revokedAt.None? && readAt < s.expiresAt && s.createdAt < expiresAt
                   && rows == old(rows)[refreshed.value := s.(tokenHash := Sha512(replacement), expiresAt := expiresAt)]
      ensures refreshed.None? ==>
                && rows == old(rows)
                && (|| !userExists
                    || (forall id | id in old(rows) ::
                          old(rows)[id].tokenHash != Sha512(token) || old(rows)[id].revokedAt.Some?)
                    || (exists id | id in old(rows) ::
                          && old(rows)[id].tokenHash == Sha512(token) && old(rows)[id].revokedAt.None?
                          && (old(rows)[id].expiresAt <= readAt || expiresAt <= old(rows)[id].createdAt)))
    {
      var saved := rows;
      var id := GetSessionByToken(token);
      if id.None? {
        return None;
      }
      if rows[id.value].expiresAt <= readAt {
        var _ := RevokeSession(id.value, begun);
        rows := saved;
        return None;
      }
      if !userExists {
        return None;
      }
      var rotated := RotateSession(id.value, Sha512(replacement), expiresAt);
      refreshed := if rotated then id else None;
    }

    /** logout, run without interruption; an expired session can still log out. */
    method Logout(token: Token, begun: int) returns (left: Option<SessionId>)
      modifies this
      ensures left.Some? ==>
                && left.value in old(rows)
                && var s := old(rows)[left.value];
                   && s.tokenHash == Sha512(token) && s.revokedAt.None? && s.createdAt <= begun
                   && rows == old(rows)[left.value := s.(revokedAt := Some(begun))]
      ensures left.None? ==>
                && rows == old(rows)
                && (|| (forall id | id in old(rows) ::
                          old(rows)[id].tokenHash != Sha512(token) || old(rows)[id].revokedAt.Some?)
                    || (exists id | id in old(rows) ::
                          && old(rows)[id].tokenHash == Sha512(token) && old(rows)[id].revokedAt.None?
                          && (begun < old(rows)[id].createdAt || old(rows)[id].expiresAt <= old(rows)[id].createdAt)))
    {
      left := GetSessionByToken(token);
      if left.Some? {
        var revoked := RevokeSession(left.value, begun);
        left := if revoked then left else None;
      }
    }
  }

  // --------------------------------------------------------------------------- the protocol

  /** A committed write of a token to a session. */
  datatype Write = Write(session: SessionId, token: Token)

  type RefreshId = nat

  /** A refresh that has found its session by the token it was given. The rotation names the session only. */
  datatype Refresh = Refresh(session: SessionId, presented: Token)

  /** A logout that has found its session, and the time its transaction began. */
  datatype Leaving = Leaving(session: SessionId, begun: int)

  datatype System = System(
    now: int,
    rows: Table,
    refreshing: map<RefreshId, Refresh>,   // refreshes between lookup and rotate
    nextRefresh: RefreshId,
    leaving: seq<Leaving>,                 // logouts between lookup and revoke
    nextSession: SessionId,
    nextToken: Token,
    writes: seq<Write>,
    redeemed: seq<Token>                   // the token each committed rotation was asked for with
  )

  datatype Step =
    | Tick(dt: nat)
    | LogIn(begun: int, expiresAt: int)   // in a transaction begun at `begun`
    | RefreshLooksUp(token: Token, id: SessionId)
    | RefreshRotates(refresh: RefreshId, expiresAt: int)
    | LogoutLooksUp(token: Token, id: SessionId, begun: int)
    | LogoutRevokes(i: nat)

  const INITIAL := System(0, map[], map[], 0, [], 0, 0, [], [])

  function Without(waiting: seq<Leaving>, i: nat): seq<Leaving>
    requires i < |waiting|
  {
    waiting[..i] + waiting[i + 1..]
  }

  function Apply(s: System, step: Step): System {
    match step
    case Tick(dt) => s.(now := s.now + dt)
    case LogIn(begun, expiresAt) =>
      var drawn := s.(nextSession := s.nextSession + 1, nextToken := s.nextToken + 1);
      if begun > s.now || !CanCreate(s.rows, Sha512(s.nextToken), begun, expiresAt) then drawn
      else drawn.(rows := s.rows[s.nextSession := Session(Sha512(s.nextToken), begun, expiresAt, None)],
                  writes := s.writes + [Write(s.nextSession, s.nextToken)])
    case RefreshLooksUp(token, id) =>
      if id in Found(s.rows, token) && s.now < s.rows[id].expiresAt then
        s.(refreshing := s.refreshing[s.nextRefresh := Refresh(id, token)], nextRefresh := s.nextRefresh + 1)
      else s
    case RefreshRotates(refresh, expiresAt) =>
      if refresh !in s.refreshing then s
      else
        var Refresh(id, presented) := s.refreshing[refresh];
        var drawn := s.(refreshing := s.refreshing - {refresh}, nextToken := s.nextToken + 1);
        if !CanRotate(s.rows, id, Sha512(s.nextToken), expiresAt) then drawn
        else drawn.(rows := s.rows[id := Rotated(s.rows[id], Sha512(s.nextToken), expiresAt)],
                    writes := s.writes + [Write(id, s.nextToken)],
                    redeemed := s.redeemed + [presented])
    case LogoutLooksUp(token, id, begun) =>
      if id in Found(s.rows, token) && begun <= s.now then s.(leaving := s.leaving + [Leaving(id, begun)]) else s
    case LogoutRevokes(i) =>
      if i >= |s.leaving| then s
      else
        var Leaving(id, begun) := s.leaving[i];
        var s' := s.(leaving := Without(s.leaving, i));
        if CanRevoke(s.rows, id, begun) then s'.(rows := s.rows[id := Revoked(s.rows[id], begun)]) else s'
  }

  function RunFrom(s: System, steps: seq<Step>): System {
    if steps == [] then s else Apply(RunFrom(s, steps[..|steps| - 1]), steps[|steps| - 1])
  }

  function Run(steps: seq<Step>): System {
    RunFrom(INITIAL, steps)
  }

  lemma RunSnoc(steps: seq<Step>, step: Step)
    ensures Run(steps + [step]) == Apply(Run(steps), step)
  {
    assert (steps + [step])[..|steps|] == steps;
  }

  lemma {:induction false} RunConcat(s: System, first: seq<Step>, more: seq<Step>)
    ensures RunFrom(s, first + more) == RunFrom(RunFrom(s, first), more)
    decreases |more|
  {
    if more == [] {
      assert first + more == first;
    } else {
      var n := |more| - 1;
      assert (first + more)[..|first + more| - 1] == first + more[..n];
      RunConcat(s, first, more[..n]);
    }
  }

  /** The token of the last committed write to a session, if any. */
  function LastWritten(writes: seq<Write>, id: SessionId): Option<Token> {
    if writes == [] then None
    else if writes[|writes| - 1].session == id then Some(writes[|writes| - 1].token)
    else LastWritten(writes[..|writes| - 1], id)
  }

  lemma LastWrittenAppend(writes: seq<Write>, w: Write, id: SessionId)
    ensures LastWritten(writes + [w], id) == if w.session == id then Some(w.token) else LastWritten(writes, id)
  {
    assert (writes + [w])[..|writes|] == writes;
  }

  /** Each row stores the hash of the last token written to it, and no token is stored twice. */
  ghost predicate Inv(s: System) {
    && (forall id | id in s.rows :: id < s.nextSession && s.rows[id].tokenHash.token < s.nextToken)
    && (forall id | id in s.rows :: LastWritten(s.writes, id) == Some(s.rows[id].tokenHash.token))
    && (forall id :: id !in s.rows ==> LastWritten(s.writes, id) == None)
    && (forall x, y | x in s.rows && y in s.rows && s.rows[x].tokenHash == s.rows[y].tokenHash :: x == y)
    && (forall refresh | refresh in s.refreshing :: refresh < s.nextRefresh && s.refreshing[refresh].session in s.rows)
  }

  lemma WriteKeepsInv(s: System, id: SessionId, row: Session, s': System)
    requires Inv(s) && row.tokenHash == Sha512(s.nextToken) && (id in s.rows || id == s.nextSession)
    requires s'.rows == s.rows[id := row] && s'.writes == s.writes + [Write(id, s.nextToken)]
    requires s'.nextToken == s.nextToken + 1 && s'.nextSession >= s.nextSession
    requires id == s.nextSession ==> s'.nextSession > s.nextSession
    requires forall refresh | refresh in s'.refreshing :: refresh < s'.nextRefresh && s'.refreshing[refresh].session in s.rows
    ensures Inv(s')
  {
    forall x: SessionId
      ensures LastWritten(s'.writes, x) == if x == id then Some(s.nextToken) else LastWritten(s.writes, x)
    {
      LastWrittenAppend(s.writes, Write(id, s.nextToken), x);
    }
  }

  /** Nothing is written: no token changes, whatever else does. */
  lemma UnwrittenKeepsInv(s: System, s': System)
    requires Inv(s)
    requires s'.rows.Keys == s.rows.Keys && forall id | id in s.rows :: s'.rows[id].tokenHash == s.rows[id].tokenHash
    requires s'.writes == s.writes && s'.nextToken >= s.nextToken && s'.nextSession >= s.nextSession
    requires forall refresh | refresh in s'.refreshing :: refresh < s'.nextRefresh && s'.refreshing[refresh].session in s.rows
    ensures Inv(s')
  {
  }

  lemma RotateKeepsInv(s: System, refresh: RefreshId, expiresAt: int)
    requires Inv(s) && refresh in s.refreshing
    ensures Inv(Apply(s, RefreshRotates(refresh, expiresAt)))
  {
    var s' := Apply(s, RefreshRotates(refresh, expiresAt));
    var id := s.refreshing[refresh].session;
    if CanRotate(s.rows, id, Sha512(s.nextToken), expiresAt) {
      WriteKeepsInv(s, id, Rotated(s.rows[id], Sha512(s.nextToken), expiresAt), s');
    } else {
      UnwrittenKeepsInv(s, s');
    }
  }

  lemma LookUpKeepsInv(s: System, token: Token, id: SessionId)
    requires Inv(s)
    ensures Inv(Apply(s, RefreshLooksUp(token, id)))
  {
    UnwrittenKeepsInv(s, Apply(s, RefreshLooksUp(token, id)));
  }

  lemma LogInKeepsInv(s: System, begun: int, expiresAt: int)
    requires Inv(s)
    ensures Inv(Apply(s, LogIn(begun, expiresAt)))
  {
    var s' := Apply(s, LogIn(begun, expiresAt));
    if begun <= s.now && CanCreate(s.rows, Sha512(s.nextToken), begun, expiresAt) {
      WriteKeepsInv(s, s.nextSession, Session(Sha512(s.nextToken), begun, expiresAt, None), s');
    } else {
      UnwrittenKeepsInv(s, s');
    }
  }

  lemma StepKeepsInv(s: System, step: Step)
    requires Inv(s)
    ensures Inv(Apply(s, step))
  {
    match step {
      case LogIn(begun, expiresAt) => LogInKeepsInv(s, begun, expiresAt);
      case RefreshRotates(refresh, expiresAt) =>
        if refresh in s.refreshing {
          RotateKeepsInv(s, refresh, expiresAt);
        }
      case RefreshLooksUp(token, id) => LookUpKeepsInv(s, token, id);
      case _ =>
        UnwrittenKeepsInv(s, Apply(s, step));
    }
  }

  lemma {:induction false} RunFromKeepsInv(s: System, steps: seq<Step>)
    requires Inv(s)
    ensures Inv(RunFrom(s, steps))
    decreases |steps|
  {
    if steps != [] {
      RunFromKeepsInv(s, steps[..|steps| - 1]);
      StepKeepsInv(RunFrom(s, steps[..|steps| - 1]), steps[|steps| - 1]);
    }
  }

  lemma InvHolds(steps: seq<Step>)
    ensures Inv(Run(steps))
  {
    RunFromKeepsInv(INITIAL, steps);
  }

  /**
   In every interleaving, a token finds a session exactly when the session is not revoked and the
   token is the last one a committed creation or rotation wrote to it; and it finds no other.
  */
  lemma FoundByLastWrittenToken(steps: seq<Step>, token: Token, id: SessionId)
    ensures var s := Run(steps);
            && (id in Found(s.rows, token) <==>
                  id in s.rows && s.rows[id].revokedAt == None && LastWritten(s.writes, id) == Some(token))
            && (id in Found(s.rows, token) ==> Found(s.rows, token) == {id})
  {
    InvHolds(steps);
  }

  /** A token issued and no longer stored anywhere unrevoked. */
  ghost predicate Spent(s: System, token: Token) {
    token < s.nextToken && Found(s.rows, token) == {}
  }

  lemma SpentStaysInOneStep(s: System, step: Step, token: Token)
    requires Inv(s) && Spent(s, token)
    ensures Spent(Apply(s, step), token)
  {
    var s' := Apply(s, step);
    forall id
      ensures id !in Found(s'.rows, token)
    {
      assert id !in Found(s.rows, token);
    }
  }

  lemma {:induction false} SpentStays(s: System, steps: seq<Step>, token: Token)
    requires Inv(s) && Spent(s, token)
    ensures Spent(RunFrom(s, steps), token)
    decreases |steps|
  {
    if steps != [] {
      var n := |steps| - 1;
      SpentStays(s, steps[..n], token);
      RunFromKeepsInv(s, steps[..n]);
      SpentStaysInOneStep(RunFrom(s, steps[..n]), steps[n], token);
    }
  }

  /** A token that was issued and stopped finding its session, replaced or revoked, never finds one again. */
  lemma ReplacedTokenIsNeverFound(steps: seq<Step>, more: seq<Step>, token: Token)
    requires token < Run(steps).nextToken && Found(Run(steps).rows, token) == {}
    ensures Found(Run(steps + more).rows, token) == {}
  {
    InvHolds(steps);
    RunConcat(INITIAL, steps, more);
    SpentStays(Run(steps), more, token);
  }

  lemma RevokedStaysInOneStep(s: System, step: Step, id: SessionId)
    requires id in s.rows && s.rows[id].revokedAt.Some? && id < s.nextSession
    ensures var s' := Apply(s, step); id in s'.rows && s'.rows[id] == s.rows[id] && id < s'.nextSession
  {
  }

  /** A revoked session is never found, rotated or otherwise written again. */
  lemma {:induction false} RevokedIsFinal(steps: seq<Step>, more: seq<Step>, id: SessionId)
    requires id in Run(steps).rows && Run(steps).rows[id].revokedAt.Some?
    ensures id in Run(steps + more).rows && Run(steps + more).rows[id] == Run(steps).rows[id]
    ensures forall token :: id !in Found(Run(steps + more).rows, token)
    decreases |more|
  {
    if more == [] {
      assert steps + more == steps;
    } else {
      var n := |more| - 1;
      RevokedIsFinal(steps, more[..n], id);
      InvHolds(steps + more[..n]);
      assert (steps + more)[..|steps + more| - 1] == steps + more[..n];
      RevokedStaysInOneStep(Run(steps + more[..n]), more[n], id);
    }
  }

  /**
   A refresh that commits hands out the one token that finds the session from then on; one that
   finds its session revoked in the meantime, or breaks a CHECK, writes nothing.
  */
  lemma RotationReplacesToken(steps: seq<Step>, refresh: RefreshId, expiresAt: int)
    requires refresh in Run(steps).refreshing
    ensures var s := Run(steps);
            var id := s.refreshing[refresh].session;
            var s' := Apply(s, RefreshRotates(refresh, expiresAt));
            && id in s.rows
            && if s.rows[id].revokedAt.Some? || expiresAt <= s.rows[id].createdAt then s'.rows == s.rows
               else
                 && s'.rows == s.rows[id := s.rows[id].(tokenHash := Sha512(s.nextToken), expiresAt := expiresAt)]
                 && Found(s'.rows, s.nextToken) == {id}
                 && forall earlier | id in Found(s.rows, earlier) :: Found(s'.rows, earlier) == {}
  {
    InvHolds(steps);
    var s := Run(steps);
    StepKeepsInv(s, RefreshRotates(refresh, expiresAt));
  }

  // ------------------------------------------------------------------ redeeming a token

  /** No row stores a redeemed token, and no row but the one it found can store a token being redeemed. */
  ghost predicate RedeemedInv(s: System) {
    && (forall token | token in s.redeemed :: token < s.nextToken && HashIsUnused(s.rows, Sha512(token), {}))
    && (forall refresh | refresh in s.refreshing ::
          var Refresh(id, presented) := s.refreshing[refresh];
          presented < s.nextToken && HashIsUnused(s.rows, Sha512(presented), {id}))
  }

  /** The one new token stored is fresh, and only a token being redeemed becomes redeemed. */
  lemma WriteKeepsRedeemedInv(s: System, id: SessionId, row: Session, s': System)
    requires RedeemedInv(s) && row.tokenHash == Sha512(s.nextToken)
    requires s'.rows == s.rows[id := row] && s'.nextToken == s.nextToken + 1
    requires forall refresh | refresh in s'.refreshing :: refresh in s.refreshing && s'.refreshing[refresh] == s.refreshing[refresh]
    requires forall token | token in s'.redeemed ::
               token in s.redeemed || (token < s.nextToken && HashIsUnused(s.rows, Sha512(token), {id}))
    ensures RedeemedInv(s')
  {
  }

  lemma UnwrittenKeepsRedeemedInv(s: System, s': System)
    requires RedeemedInv(s)
    requires s'.rows.Keys == s.rows.Keys && forall id | id in s.rows :: s'.rows[id].tokenHash == s.rows[id].tokenHash
    requires s'.redeemed == s.redeemed && s'.nextToken >= s.nextToken
    requires forall refresh | refresh in s'.refreshing :: refresh in s.refreshing && s'.refreshing[refresh] == s.refreshing[refresh]
    ensures RedeemedInv(s')
  {
  }

  lemma LookUpKeepsRedeemedInv(s: System, token: Token, id: SessionId)
    requires Inv(s) && RedeemedInv(s)
    ensures RedeemedInv(Apply(s, RefreshLooksUp(token, id)))
  {
    assert Apply(s, RefreshLooksUp(token, id)).rows == s.rows;
  }

  lemma RotateKeepsRedeemedInv(s: System, refresh: RefreshId, expiresAt: int)
    requires Inv(s) && RedeemedInv(s) && refresh in s.refreshing
    ensures RedeemedInv(Apply(s, RefreshRotates(refresh, expiresAt)))
  {
    var s' := Apply(s, RefreshRotates(refresh, expiresAt));
    var id := s.refreshing[refresh].session;
    if CanRotate(s.rows, id, Sha512(s.nextToken), expiresAt) {
      WriteKeepsRedeemedInv(s, id, Rotated(s.rows[id], Sha512(s.nextToken), expiresAt), s');
    } else {
      UnwrittenKeepsRedeemedInv(s, s');
    }
  }

  lemma LogInKeepsRedeemedInv(s: System, begun: int, expiresAt: int)
    requires Inv(s) && RedeemedInv(s)
    ensures RedeemedInv(Apply(s, LogIn(begun, expiresAt)))
  {
    var s' := Apply(s, LogIn(begun, expiresAt));
    if begun <= s.now && CanCreate(s.rows, Sha512(s.nextToken), begun, expiresAt) {
      WriteKeepsRedeemedInv(s, s.nextSession, Session(Sha512(s.nextToken), begun, expiresAt, None), s');
    } else {
      UnwrittenKeepsRedeemedInv(s, s');
    }
  }

  lemma StepKeepsRedeemedInv(s: System, step: Step)
    requires Inv(s) && RedeemedInv(s)
    ensures RedeemedInv(Apply(s, step))
  {
    match step {
      case LogIn(begun, expiresAt) => LogInKeepsRedeemedInv(s, begun, expiresAt);
      case RefreshLooksUp(token, id) => LookUpKeepsRedeemedInv(s, token, id);
      case RefreshRotates(refresh, expiresAt) =>
        if refresh in s.refreshing {
          RotateKeepsRedeemedInv(s, refresh, expiresAt);
        }
      case _ => UnwrittenKeepsRedeemedInv(s, Apply(s, step));
    }
  }

  lemma {:induction false} RedeemedInvHolds(steps: seq<Step>)
    ensures RedeemedInv(Run(steps))
  {
    if steps != [] {
      var n := |steps| - 1;
      RedeemedInvHolds(steps[..n]);
      InvHolds(steps[..n]);
      StepKeepsRedeemedInv(Run(steps[..n]), steps[n]);
    }
  }

  /** A token that still finds its session has not been redeemed. */
  lemma FoundTokenIsUnredeemed(steps: seq<Step>, token: Token)
    requires Found(Run(steps).rows, token) != {}
    ensures token !in Run(steps).redeemed
  {
    RedeemedInvHolds(steps);
    var id :| id in Found(Run(steps).rows, token);
  }

  /** A step that commits a rotation asked for with this token. */
  predicate Redeems(s: System, step: Step, token: Token) {
    && step.RefreshRotates? && step.refresh in s.refreshing
    && s.refreshing[step.refresh].presented == token
    && CanRotate(s.rows, s.refreshing[step.refresh].session, Sha512(s.nextToken), step.expiresAt)
  }

  predicate RedeemsAt(steps: seq<Step>, between: seq<Step>, k: nat, token: Token)
    requires k < |between|
  {
    Redeems(Run(steps + between[..k]), between[k], token)
  }

  lemma RedeemedInOneStep(s: System, step: Step, token: Token)
    ensures token in Apply(s, step).redeemed <==> token in s.redeemed || Redeems(s, step, token)
  {
  }

  lemma {:induction false} RedeemedBetween(steps: seq<Step>, between: seq<Step>, token: Token)
    ensures token in Run(steps + between).redeemed
            <==> token in Run(steps).redeemed || exists k: nat :: k < |between| && RedeemsAt(steps, between, k, token)
    decreases |between|
  {
    if between == [] {
      assert steps + between == steps;
    } else {
      var n := |between| - 1;
      var s := Run(steps + between[..n]);
      RedeemedBetween(steps, between[..n], token);
      RunSnoc(steps + between[..n], between[n]);
      assert steps + between == steps + between[..n] + [between[n]];
      RedeemedInOneStep(s, between[n], token);
      assert RedeemsAt(steps, between, n, token) <==> Redeems(s, between[n], token);
      assert forall k: nat :: k < n ==> between[..n][..k] == between[..k];
      assert forall k: nat :: k < n ==> RedeemsAt(steps, between[..n], k, token) == RedeemsAt(steps, between, k, token);
    }
  }

  lemma {:induction false} RefreshIsKept(s: System, between: seq<Step>, refresh: RefreshId)
    requires refresh in s.refreshing && refresh < s.nextRefresh
    ensures var s' := RunFrom(s, between);
            refresh < s'.nextRefresh && (refresh in s'.refreshing ==> s'.refreshing[refresh] == s.refreshing[refresh])
    decreases |between|
  {
    if between != [] {
      RefreshIsKept(s, between[..|between| - 1], refresh);
    }
  }

  /**
   A rotation is the first for the token it was asked for with exactly when no other refresh with
   that token commits between its lookup and its UPDATE; the UPDATE itself checks nothing of the kind.
  */
  lemma RedemptionIsFirstIff(before: seq<Step>, token: Token, id: SessionId, between: seq<Step>)
    requires var refresh := Run(before).nextRefresh;
             && refresh in Run(before + [RefreshLooksUp(token, id)]).refreshing
             && refresh in Run(before + [RefreshLooksUp(token, id)] + between).refreshing
    ensures var found := before + [RefreshLooksUp(token, id)];
            var s := Run(found + between);
            && s.refreshing[Run(before).nextRefresh] == Refresh(id, token)
            && (token in s.redeemed <==> exists k: nat :: k < |between| && RedeemsAt(found, between, k, token))
  {
    var found := before + [RefreshLooksUp(token, id)];
    assert found[..|found| - 1] == before;
    InvHolds(before);
    FoundTokenIsUnredeemed(before, token);
    RedeemedBetween(found, between, token);
    RunConcat(INITIAL, found, between);
    RefreshIsKept(Run(found), between, Run(before).nextRefresh);
  }

  /** Two refreshes that look the same token up before either rotates both commit. */
  lemma TokenRedeemedTwiceReachable() returns (steps: seq<Step>)
    ensures Run(steps).redeemed == [0, 0]
  {
    steps := [] + [LogIn(0, 100)];
    RunSnoc([], LogIn(0, 100));
    assert Run(steps).rows == map[0 := Session(Sha512(0), 0, 100, None)];
    assert 0 in Found(Run(steps).rows, 0);
    RunSnoc(steps, RefreshLooksUp(0, 0));
    steps := steps + [RefreshLooksUp(0, 0)];
    RunSnoc(steps, RefreshLooksUp(0, 0));
    steps := steps + [RefreshLooksUp(0, 0)];
    assert Run(steps).refreshing == map[0 := Refresh(0, 0), 1 := Refresh(0, 0)];
    RunSnoc(steps, RefreshRotates(0, 100));
    steps := steps + [RefreshRotates(0, 100)];
    assert Run(steps).refreshing == map[1 := Refresh(0, 0)];
    RunSnoc(steps, RefreshRotates(1, 100));
    steps := steps + [RefreshRotates(1, 100)];
  }

  // ------------------------------------------------------------- workflows without interruption

  /** A refresh that nothing interrupts is refresh_access_token run on its own. */
  lemma UninterruptedRefresh(steps: seq<Step>, token: Token, id: SessionId, expiresAt: int)
    ensures var s := Run(steps);
            var s' := Apply(Apply(s, RefreshLooksUp(token, id)), RefreshRotates(s.nextRefresh, expiresAt));
            && s'.refreshing == s.refreshing
            && s'.rows == if && id in s.rows && s.rows[id].tokenHash == Sha512(token) && s.rows[id].revokedAt.None?
                             && s.now < s.rows[id].expiresAt && s.rows[id].createdAt < expiresAt
                          then s.rows[id := s.rows[id].(tokenHash := Sha512(s.nextToken), expiresAt := expiresAt)]
                          else s.rows
  {
    InvHolds(steps);
    var s := Run(steps);
    assert s.refreshing[s.nextRefresh := Refresh(id, token)] - {s.nextRefresh} == s.refreshing;
  }

  /** A logout that nothing interrupts is logout run on its own. */
  lemma UninterruptedLogout(s: System, token: Token, id: SessionId, begun: int)
    requires begun <= s.now
    ensures var s' := Apply(Apply(s, LogoutLooksUp(token, id, begun)), LogoutRevokes(|s.leaving|));
            && s'.leaving == s.leaving
            && s'.rows == if && id in s.rows && s.rows[id].tokenHash == Sha512(token) && s.rows[id].revokedAt.None?
                             && s.rows[id].createdAt <= begun && s.rows[id].createdAt < s.rows[id].expiresAt
                          then s.rows[id := s.rows[id].(revokedAt := Some(begun))]
                          else s.rows
  {
    assert Without(s.leaving + [Leaving(id, begun)], |s.leaving|) == s.leaving;
  }
}
