/**
 What the row of a session says, told by what happened to the session: its sign-in, the
 refreshes that succeeded and what ended it (backend/internal/auth/service.go,
 backend/internal/storage/postgres/sessions.go).
 */
module SessionTraces {
  import opened Common
  import opened Sessions
  import opened SessionRuns

  /** The last refresh of a session that succeeded. */
  function LastWin(wins: seq<Win>, id: Id): Option<Win> {
    if wins == [] then None
    else if wins[|wins| - 1].session == id then Some(wins[|wins| - 1])
    else LastWin(wins[..|wins| - 1], id)
  }

  /** When a session last got a token. */
  function LastUse(s: State, id: Id): Time
    requires id in s.began
  {
    match LastWin(s.wins, id)
    case None => s.began[id].at
    case Some(win) => win.at
  }

  /** The row holds the token given out last, knows the one before it, and expires a
      lifetime after. */
  ghost predicate Traced(s: State, row: Session) {
    && row.id in s.began && row.userId == s.began[row.id].userId
    && row.lastUsedAt == LastUse(s, row.id) && row.expiresAt == LastUse(s, row.id) + s.lifetime
    && match LastWin(s.wins, row.id)
       case None => row.tokenHash == s.began[row.id].hash && row.previous == None && row.rotatedAt == None
       case Some(win) =>
         row.tokenHash == win.token && row.previous == Some(win.hash) && row.rotatedAt == Some(win.at)
  }

  ghost predicate AllTraced(s: State) {
    && (forall id :: id in s.rows ==> Traced(s, s.rows[id]))
    && (forall win :: win in s.wins ==> win.session in s.ids)
  }

  lemma {:induction false} NoWin(wins: seq<Win>, id: Id)
    requires forall win :: win in wins ==> win.session != id
    ensures LastWin(wins, id) == None
  {
    if wins != [] {
      NoWin(wins[..|wins| - 1], id);
    }
  }

  lemma EndingTraces(s: State, t: State)
    requires AllTraced(s) && OnlyEnds(s.rows, t.rows)
    requires t.wins == s.wins && t.began == s.began && t.ids == s.ids && t.lifetime == s.lifetime
    ensures AllTraced(t)
  {
    hide LastWin;
    forall id | id in t.rows ensures Traced(t, t.rows[id]) {
      assert Traced(s, s.rows[id]);
    }
  }

  lemma LoginTraces(s: State, e: Event)
    requires Inv(s) && AllTraced(s) && Possible(s, e) && e.Login?
    ensures AllTraced(Next(s, e))
  {
    hide LastWin;
    var t := Next(s, e);
    NoWin(s.wins, e.id);
    forall id | id in t.rows ensures Traced(t, t.rows[id]) {
      assert id in s.rows ==> Traced(s, s.rows[id]);
    }
  }

  lemma WinTraces(s: State, call: Id, token: Hash)
    requires Inv(s) && AllTraced(s) && call in s.calls && s.calls[call].Allowed?
    requires CanRotate(s.rows, s.calls[call].stored.id, s.calls[call].hash)
    ensures AllTraced(Stepped(s, call, None, token))
  {
    var t := Stepped(s, call, None, token);
    assert t.wins[..|t.wins| - 1] == s.wins;
    forall id | id in t.rows ensures Traced(t, t.rows[id]) {
      assert Traced(s, s.rows[id]);
    }
  }

  lemma StepTraces(s: State, e: Event)
    requires Inv(s) && AllTraced(s) && Possible(s, e)
    ensures AllTraced(Next(s, e))
  {
    hide AllTraced;
    if e.Login? {
      LoginTraces(s, e);
    } else if e.Step? && s.calls[e.call].Allowed?
              && CanRotate(s.rows, s.calls[e.call].stored.id, s.calls[e.call].hash) {
      WinTraces(s, e.call, e.token);
    } else {
      EndingTraces(s, Next(s, e));
    }
  }

  lemma {:induction false} RunTraces(s: State, events: seq<Event>)
    requires Inv(s) && AllTraced(s) && Run(s, events)
    ensures Inv(After(s, events)) && AllTraced(After(s, events))
    decreases |events|
  {
    if events != [] {
      StepKeeps(s, events[0]);
      StepTraces(s, events[0]);
      RunTraces(Next(s, events[0]), events[1..]);
    }
  }

  /** Whatever happened, a session expires a lifetime after it last got a token: after its
      sign-in or its last refresh that succeeded. */
  lemma {:induction false} LastsFromLastUse(lifetime: Time, clock: Time, events: seq<Event>, id: Id)
    requires Run(Nobody(lifetime, clock), events)
    requires id in After(Nobody(lifetime, clock), events).rows
    ensures var s := After(Nobody(lifetime, clock), events);
            && s.lifetime == lifetime && id in s.began
            && s.rows[id].userId == s.began[id].userId
            && s.rows[id].expiresAt == LastUse(s, id) + lifetime
            && s.rows[id].lastUsedAt == LastUse(s, id)
            && (s.rows[id].rotatedAt.Some? ==> s.rows[id].expiresAt == s.rows[id].rotatedAt.value + lifetime)
            && s.rows[id].tokenHash ==
                 match LastWin(s.wins, id) case None => s.began[id].hash case Some(win) => win.token
  {
    hide Inv;
    hide AllTraced;
    var start := Nobody(lifetime, clock);
    Initially(lifetime, clock);
    assert AllTraced(start) by {
      NobodyTraced(lifetime, clock);
    }
    RunTraces(start, events);
    SameLifetime(start, events);
    RowTraced(After(start, events), id);
  }

  lemma NobodyTraced(lifetime: Time, clock: Time)
    ensures AllTraced(Nobody(lifetime, clock))
  {
  }

  lemma RowTraced(s: State, id: Id)
    requires Inv(s) && AllTraced(s) && id in s.rows
    ensures Traced(s, s.rows[id]) && s.rows[id].id == id
  {
  }

  lemma {:induction false} SameLifetime(s: State, events: seq<Event>)
    requires Run(s, events)
    ensures After(s, events).lifetime == s.lifetime
    decreases |events|
  {
    if events != [] {
      SameLifetime(Next(s, events[0]), events[1..]);
    }
  }

  /** Presented with nothing in between, the token a session holds refreshes it if and only
      if the session was not ended, its account is active, and less than a lifetime has passed
      since it got that token; then it expires a lifetime from now. */
  lemma {:induction false} RefreshSucceeds(s: State, steps: seq<Event>, call: Id, id: Id, token: Hash)
    requires Inv(s) && AllTraced(s) && call !in s.calls && id in s.rows
    requires RunsOut(Next(s, Refresh(call, s.rows[id].tokenHash)), steps, call, token)
    ensures var t := After(Next(s, Refresh(call, s.rows[id].tokenHash)), steps);
            var live := s.rows[id].revokedAt.None? && s.began[id].userId in s.active
                        && s.clock - LastUse(s, id) < s.lifetime;
            && (Told(s, t) == Refreshed(id, token) <==> live)
            && if live
               then id in t.rows && t.rows[id].tokenHash == token && t.rows[id].expiresAt == s.clock + s.lifetime
               else t.rows == s.rows && Told(s, t) == TokenInvalid
  {
    hide Run;
    hide After;
    hide RunsOut;
    RowTraced(s, id);
    ReachedIsKeyed(s);
    UndisturbedRefresh(s, steps, call, s.rows[id].tokenHash, token);
  }

  /** Signing in adds a live session that holds the token given out, and touches no other. */
  lemma LoginOpens(s: State, userId: Id, id: Id, hash: Hash)
    requires Inv(s) && AllTraced(s) && Possible(s, Login(userId, id, hash))
    ensures var t := Next(s, Login(userId, id, hash));
            && id in t.rows && t.rows[id].userId == userId && t.rows[id].tokenHash == hash
            && t.rows[id].revokedAt == None && t.rows[id].expiresAt == s.clock + s.lifetime
            && id !in s.rows && forall other :: other != id ==>
                 (other in t.rows <==> other in s.rows) && (other in s.rows ==> t.rows[other] == s.rows[other])
  {
  }

  /** From the moment an account is no longer active none of its sessions can be refreshed. */
  lemma {:induction false} InactiveRefused(s: State, active: set<Id>, steps: seq<Event>, call: Id, id: Id, token: Hash)
    requires Inv(s) && AllTraced(s) && call !in s.calls && id in s.rows && s.rows[id].userId !in active
    requires RunsOut(Next(Next(s, SetActive(active)), Refresh(call, s.rows[id].tokenHash)), steps, call, token)
    ensures var t := After(Next(Next(s, SetActive(active)), Refresh(call, s.rows[id].tokenHash)), steps);
            Told(s, t) == TokenInvalid && t.rows == s.rows
  {
    hide Run;
    hide After;
    hide RunsOut;
    StepKeeps(s, SetActive(active));
    StepTraces(s, SetActive(active));
    RowTraced(s, id);
    RefreshSucceeds(Next(s, SetActive(active)), steps, call, id, token);
  }

  /** Once a lifetime has passed since a session last got a token, it cannot be refreshed. */
  lemma {:induction false} ExpiredRefused(s: State, to: Time, steps: seq<Event>, call: Id, id: Id, token: Hash)
    requires Inv(s) && AllTraced(s) && call !in s.calls && id in s.rows && to >= s.clock
    requires id in s.began && to - LastUse(s, id) >= s.lifetime
    requires RunsOut(Next(Next(s, Tick(to)), Refresh(call, s.rows[id].tokenHash)), steps, call, token)
    ensures var t := After(Next(Next(s, Tick(to)), Refresh(call, s.rows[id].tokenHash)), steps);
            Told(s, t) == TokenInvalid && t.rows == s.rows
  {
    hide Run;
    hide After;
    hide RunsOut;
    StepKeeps(s, Tick(to));
    StepTraces(s, Tick(to));
    RefreshSucceeds(Next(s, Tick(to)), steps, call, id, token);
  }

  /** Presented with nothing in between, the token a session exchanged last ends it if and only if
      it was not ended and exchanged the token thirty seconds ago or longer; a session that
      exchanged none knows no such token. */
  lemma ReplayEnds(s: State, call: Id, id: Id, token: Hash)
    requires Inv(s) && AllTraced(s) && call !in s.calls && token !in s.issued && id in s.rows
    ensures s.rows[id].previous == None <==> LastWin(s.wins, id) == None
    ensures s.rows[id].previous.Some? ==>
              var hash, win := s.rows[id].previous.value, LastWin(s.wins, id).value;
              var s1 := Next(s, Refresh(call, hash));
              var s2 := Next(s1, Step(call, None, token));
              var s3 := Next(s2, Step(call, Some(s.rows[id]), token));
              && Possible(s1, Step(call, None, token)) && Possible(s2, Step(call, Some(s.rows[id]), token))
              && hash == win.hash
              && var s4 := Next(s3, Step(call, None, token));
                 if s.rows[id].revokedAt.None? && s.clock - win.at >= 30 then
                   call in s4.calls && Next(s4, Step(call, None, token)).rows
                                       == s.rows[id := s.rows[id].(revokedAt := Some(s.clock))]
                 else call !in s4.calls && s4.rows == s.rows
  {
    RowTraced(s, id);
    if s.rows[id].previous.Some? {
      UndisturbedReplay(s, call, token, id);
    }
  }

  // ------------------------------------------------------------- what ends a session

  /** What one step does about a session that is live before it. */
  predicate EndedBy(s: State, e: Event, id: Id)
    requires id in s.rows && id in s.began && (e.Step? ==> e.call in s.calls)
  {
    match e
    case EndSession(userId, ended) => ended == id && s.began[id].userId == userId
    case ChangePassword(userId, keep) => keep != id && s.began[id].userId == userId
    case CleanUp(before) => s.rows[id].expiresAt < before
    case Step(call, _, _) =>
      (s.calls[call].Ending? || s.calls[call].Leaving?) && s.calls[call].stored.id == id
    case _ => false
  }

  /** A live session ends when its owner ends it or signs out, changes the password on another
      device, when an exchanged token of it is replayed, and when it expired and is cleaned
      up; nothing else ends it, and nothing of it but that changes. */
  lemma EndsExactly(s: State, e: Event, id: Id)
    requires Inv(s) && AllTraced(s) && Possible(s, e) && id in s.rows && s.rows[id].revokedAt.None?
    ensures id in s.began
    ensures var t := Next(s, e);
            && (id in t.rows && t.rows[id].revokedAt.None? <==> !EndedBy(s, e, id))
            && (EndedBy(s, e, id) && id in t.rows ==>
                  t.rows[id] == s.rows[id].(
                    revokedAt := Some(if e.Step? && s.calls[e.call].Ending? then s.calls[e.call].at else s.clock)))
            && (EndedBy(s, e, id) ==> (id in t.rows <==> !e.CleanUp?))
  {
    RowTraced(s, id);
    if e.Step? {
      assert CallSound(s, s.calls[e.call]);
    }
  }

  /** Cleaning up removes the sessions that expired or were ended before a moment, and no other; so
      none that a token could still open, as long as that moment is not to come. */
  lemma CleanUpRemoves(s: State, before: Time, id: Id)
    requires Inv(s) && AllTraced(s) && id in s.rows
    ensures var t := Next(s, CleanUp(before));
            && (id !in t.rows <==> LastUse(s, id) + s.lifetime < before
                                   || (s.rows[id].revokedAt.Some? && s.rows[id].revokedAt.value < before))
            && (id in t.rows ==> t.rows[id] == s.rows[id])
            && (before <= s.clock && s.rows[id].revokedAt.None? && s.clock - LastUse(s, id) < s.lifetime ==>
                  id in t.rows)
  {
    RowTraced(s, id);
  }
}
