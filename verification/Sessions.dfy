/**
 The sessions behind signed-in devices: the statements of the session store
 (backend/internal/storage/postgres/sessions.go, the contract of
 backend/internal/auth/service.go lines 24-35) and the service that refreshes, replays
 and ends them. Hashes of tokens stand for the tokens; two tokens never share a hash.
 */
module Sessions {
  import opened Common

  type Hash = int

  /** Seconds. */
  type Time = int

  /** An exchanged token ends its session only when this much time has passed. */
  const REUSE_GRACE: Time := 30

  datatype Session = Session(id: Id, userId: Id, tokenHash: Hash, previous: Option<Hash>, lastUsedAt: Time,
                             expiresAt: Time, revokedAt: Option<Time>, rotatedAt: Option<Time>)
  {
    predicate IsUsable(now: Time) {
      revokedAt.None? && now < expiresAt
    }
  }

  type Rows = map<Id, Session>

  // ------------------------------------------------------------- statements

  /** Replaces the token of a session, but only while it holds the old one and is live. */
  function Rotated(rows: Rows, id: Id, from: Hash, to: Hash, usedAt: Time, expiresAt: Time): Rows {
    if id in rows && rows[id].tokenHash == from && rows[id].revokedAt.None?
    then rows[id := rows[id].(previous := Some(rows[id].tokenHash), tokenHash := to, lastUsedAt := usedAt,
                              rotatedAt := Some(usedAt), expiresAt := expiresAt)]
    else rows
  }

  predicate CanRevoke(rows: Rows, userId: Id, id: Id) {
    id in rows && rows[id].userId == userId && rows[id].revokedAt.None?
  }

  function Revoked(rows: Rows, userId: Id, id: Id, at: Time): Rows {
    if CanRevoke(rows, userId, id) then rows[id := rows[id].(revokedAt := Some(at))] else rows
  }

  /** Ends the other sessions of an account, after its owner changed the password. */
  function OthersRevoked(rows: Rows, userId: Id, keep: Id, at: Time): Rows {
    map id | id in rows ::
      if rows[id].userId == userId && id != keep && rows[id].revokedAt.None?
      then rows[id].(revokedAt := Some(at)) else rows[id]
  }

  predicate Finished(row: Session, before: Time) {
    row.expiresAt < before || (row.revokedAt.Some? && row.revokedAt.value < before)
  }

  function FinishedDeleted(rows: Rows, before: Time): Rows {
    map id | id in rows && !Finished(rows[id], before) :: rows[id]
  }

  function LoggedIn(userId: Id, id: Id, hash: Hash, now: Time, lifetime: Time): Session {
    Session(id, userId, hash, None, now, now + lifetime, None, None)
  }

  /** The session whose current token this is. */
  ghost predicate Holds(rows: Rows, hash: Hash, found: Option<Session>) {
    match found
    case None => forall id :: id in rows ==> rows[id].tokenHash != hash
    case Some(row) => row.id in rows && rows[row.id] == row && row.tokenHash == hash
  }

  /** The session whose previous token this is. */
  ghost predicate HeldLast(rows: Rows, hash: Hash, found: Option<Session>) {
    match found
    case None => forall id :: id in rows ==> rows[id].previous != Some(hash)
    case Some(row) => row.id in rows && rows[row.id] == row && row.previous == Some(hash)
  }

  predicate Active(rows: Rows, active: set<Id>, userId: Id, id: Id, now: Time) {
    userId in active && id in rows && rows[id].userId == userId && rows[id].revokedAt.None? && rows[id].expiresAt > now
  }

  /** Rows are found under their own identifiers, and no two share a token. */
  ghost predicate Keyed(rows: Rows) {
    && (forall id :: id in rows ==> rows[id].id == id)
    && (forall i, j :: i in rows && j in rows && i != j ==> rows[i].tokenHash != rows[j].tokenHash)
    && (forall i, j :: i in rows && j in rows && i != j && rows[i].previous.Some? ==>
          rows[i].previous != rows[j].previous)
  }

  class SessionStore {
    var rows: Rows
    var active: set<Id>

    constructor ()
      ensures rows == map[] && active == {}
    {
      rows, active := map[], {};
    }

    method Create(session: Session)
      requires session.id !in rows
      modifies this`rows
      ensures rows == old(rows)[session.id := session]
    {
      rows := rows[session.id := session];
    }

    method GetByHash(hash: Hash) returns (found: Option<Session>)
      requires Keyed(rows)
      ensures Holds(rows, hash, found)
    {
      if id :| id in rows && rows[id].tokenHash == hash {
        return Some(rows[id]);
      }
      return None;
    }

    method Superseded(hash: Hash) returns (found: Option<Session>)
      requires Keyed(rows)
      ensures HeldLast(rows, hash, found)
    {
      if id :| id in rows && rows[id].previous == Some(hash) {
        return Some(rows[id]);
      }
      return None;
    }

    method Rotate(id: Id, from: Hash, to: Hash, usedAt: Time, expiresAt: Time) returns (ok: bool)
      modifies this`rows
      ensures rows == Rotated(old(rows), id, from, to, usedAt, expiresAt)
      ensures ok <==> id in old(rows) && old(rows)[id].tokenHash == from && old(rows)[id].revokedAt.None?
      ensures rows == if !ok then old(rows)
              else old(rows)[id := old(rows)[id].(previous := Some(from), tokenHash := to, lastUsedAt := usedAt,
                                                  rotatedAt := Some(usedAt), expiresAt := expiresAt)]
    {
      ok := id in rows && rows[id].tokenHash == from && rows[id].revokedAt.None?;
      if ok {
        rows := rows[id := rows[id].(previous := Some(rows[id].tokenHash), tokenHash := to, lastUsedAt := usedAt,
                                     rotatedAt := Some(usedAt), expiresAt := expiresAt)];
      }
    }

    method Revoke(userId: Id, id: Id, at: Time) returns (ok: bool)
      modifies this`rows
      ensures rows == Revoked(old(rows), userId, id, at)
      ensures ok <==> id in old(rows) && old(rows)[id].userId == userId && old(rows)[id].revokedAt.None?
      ensures rows == if ok then old(rows)[id := old(rows)[id].(revokedAt := Some(at))] else old(rows)
    {
      ok := CanRevoke(rows, userId, id);
      if ok {
        rows := rows[id := rows[id].(revokedAt := Some(at))];
      }
    }

    method ActiveUser(userId: Id, id: Id, now: Time) returns (ok: bool)
      ensures ok <==> Active(rows, active, userId, id, now)
      ensures ok <==> userId in active && id in rows && rows[id].userId == userId && rows[id].revokedAt.None?
                      && now < rows[id].expiresAt
    {
      return Active(rows, active, userId, id, now);
    }
  }

  // ------------------------------------------------------------- the service

  datatype Outcome = Refreshed(session: Id, token: Hash) | TokenInvalid | TokenReused

  /** What a refresh nobody interferes with does: it exchanges the current token of a
      live session of an active account, ends the session that exchanged the token half a
      minute ago or longer, and otherwise changes nothing. */
  ghost predicate RefreshDoes(before: Rows, active: set<Id>, hash: Hash, next: Hash, now: Time, lifetime: Time,
                              after: Rows, outcome: Outcome)
  {
    if exists id :: id in before && before[id].tokenHash == hash then
      forall id :: id in before && before[id].tokenHash == hash ==>
        if before[id].IsUsable(now) && before[id].userId in active then
          outcome == Refreshed(id, next) && after == Rotated(before, id, hash, next, now, now + lifetime)
        else outcome == TokenInvalid && after == before
    else ReplayDoes(before, hash, now, after, outcome)
  }

  ghost predicate ReplayDoes(before: Rows, hash: Hash, now: Time, after: Rows, outcome: Outcome) {
    if exists id :: id in before && before[id].previous == Some(hash) then
      forall id :: id in before && before[id].previous == Some(hash) ==>
        if Ends(before[id], now) then
          outcome == TokenReused && after == Revoked(before, before[id].userId, id, now)
        else outcome == TokenInvalid && after == before
    else outcome == TokenInvalid && after == before
  }

  /** What signing out does: it ends the session of the token. */
  ghost predicate LogoutDoes(before: Rows, hash: Hash, now: Time, after: Rows) {
    && (forall id :: id in before && before[id].tokenHash == hash ==>
          after == Revoked(before, before[id].userId, id, now))
    && ((forall id :: id in before ==> before[id].tokenHash != hash) ==> after == before)
  }

  /** Whether a replay of the previous token of a session ends it. */
  predicate Ends(row: Session, now: Time) {
    row.revokedAt.None? && row.rotatedAt.Some? && now - row.rotatedAt.value >= REUSE_GRACE
  }

  class Service {
    const sessions: SessionStore
    const lifetime: Time

    constructor (sessions: SessionStore, lifetime: Time)
      ensures this.sessions == sessions && this.lifetime == lifetime
    {
      this.sessions, this.lifetime := sessions, lifetime;
    }

    /** Signs in an account whose credentials were accepted: a new session with a new token. */
    method Login(userId: Id, id: Id, hash: Hash, now: Time)
      requires Keyed(sessions.rows) && id !in sessions.rows
      requires forall i :: i in sessions.rows ==> sessions.rows[i].tokenHash != hash
      modifies sessions`rows
      ensures Keyed(sessions.rows)
      ensures sessions.rows == old(sessions.rows)[id := LoggedIn(userId, id, hash, now, lifetime)]
    {
      sessions.Create(LoggedIn(userId, id, hash, now, lifetime));
    }

    method Refresh(hash: Hash, next: Hash, now: Time) returns (outcome: Outcome)
      requires Keyed(sessions.rows)
      modifies sessions`rows
      ensures RefreshDoes(old(sessions.rows), sessions.active, hash, next, now, lifetime, sessions.rows, outcome)
    {
      var stored := sessions.GetByHash(hash);
      if stored.None? {
        outcome := Replayed(hash, now);
        return;
      }
      if !stored.value.IsUsable(now) {
        return TokenInvalid;
      }
      var allowed := sessions.ActiveUser(stored.value.userId, stored.value.id, now);
      if !allowed {
        return TokenInvalid;
      }
      var ok := sessions.Rotate(stored.value.id, hash, next, now, now + lifetime);
      if !ok {
        return TokenInvalid;
      }
      return Refreshed(stored.value.id, next);
    }

    method Replayed(hash: Hash, now: Time) returns (outcome: Outcome)
      requires Keyed(sessions.rows)
      modifies sessions`rows
      ensures ReplayDoes(old(sessions.rows), hash, now, sessions.rows, outcome)
    {
      var stored := sessions.Superseded(hash);
      if stored.None? {
        return TokenInvalid;
      }
      var row := stored.value;
      if row.revokedAt.Some? || row.rotatedAt.None? || now - row.rotatedAt.value < REUSE_GRACE {
        return TokenInvalid;
      }
      var _ := sessions.Revoke(row.userId, row.id, now);
      return TokenReused;
    }

    /** Ends the session of a token; signing out twice still leaves the client signed out. */
    method Logout(hash: Hash, now: Time)
      requires Keyed(sessions.rows)
      modifies sessions`rows
      ensures LogoutDoes(old(sessions.rows), hash, now, sessions.rows)
    {
      var stored := sessions.GetByHash(hash);
      if stored.Some? {
        var _ := sessions.Revoke(stored.value.userId, stored.value.id, now);
      }
    }
  }
}
