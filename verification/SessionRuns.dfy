/**
 Every interleaving of sign-ins, refreshes, replays, sign-outs and revocations
 (backend/internal/auth/service.go). A call runs statement by statement, others come in
 between, a call may be abandoned anywhere, and any token may be presented at any time.
 */
module SessionRuns {
  import opened Common
  import opened Sessions

  /** How far a call has come. */
  datatype Call =
    | Presented(hash: Hash)
    | Found(hash: Hash, stored: Session)
    | Usable(hash: Hash, stored: Session, at: Time)
    | Allowed(hash: Hash, stored: Session, at: Time)
    | Unknown(hash: Hash)
    | Suspect(hash: Hash, stored: Session)
    | Ending(hash: Hash, stored: Session, at: Time)
    | SigningOut(hash: Hash)
    | Leaving(stored: Session)

  /** A refresh that succeeded: the token it exchanged, for which session, when, for what. */
  datatype Win = Win(hash: Hash, session: Id, at: Time, token: Hash)

  /** A replay that was answered by ending the session. */
  datatype Reuse = Reuse(hash: Hash, session: Id, at: Time)

  /** A sign-in: whose session began, with which token, when. */
  datatype Start = Start(userId: Id, hash: Hash, at: Time)

  datatype State = State(rows: Rows, active: set<Id>, clock: Time, lifetime: Time, calls: map<Id, Call>,
                         issued: set<Hash>, ids: set<Id>, began: map<Id, Start>, wins: seq<Win>, reuses: seq<Reuse>)

  datatype Event =
    | Login(userId: Id, id: Id, hash: Hash)
    | Refresh(call: Id, hash: Hash)
    | Logout(call: Id, hash: Hash)
    /** The next statement of a call; the finds are what the store may answer. */
    | Step(call: Id, found: Option<Session>, token: Hash)
    | Abandon(call: Id)
    | EndSession(userId: Id, id: Id)
    | ChangePassword(userId: Id, keep: Id)
    | SetActive(active: set<Id>)
    | CleanUp(before: Time)
    | Tick(to: Time)

  /** Tokens and sessions made are new ones, the store answers what it holds, and time
      does not run back. */
  ghost predicate Possible(s: State, e: Event) {
    match e
    case Login(_, id, hash) => id !in s.ids && hash !in s.issued
    case Refresh(call, _) => call !in s.calls
    case Logout(call, _) => call !in s.calls
    case Step(call, found, token) =>
      && call in s.calls && token !in s.issued
      && (s.calls[call].Presented? || s.calls[call].SigningOut? ==> Holds(s.rows, s.calls[call].hash, found))
      && (s.calls[call].Unknown? ==> HeldLast(s.rows, s.calls[call].hash, found))
    case Tick(to) => to >= s.clock
    case _ => true
  }

  function Over(s: State, call: Id): State {
    s.(calls := map c | c in s.calls && c != call :: s.calls[c])
  }

  function Goes(s: State, call: Id, to: Call): State {
    s.(calls := s.calls[call := to])
  }

  function Stepped(s: State, call: Id, found: Option<Session>, token: Hash): State
    requires call in s.calls
  {
    match s.calls[call]
    case Presented(hash) =>
      if found.Some? then Goes(s, call, Found(hash, found.value)) else Goes(s, call, Unknown(hash))
    case Found(hash, stored) =>
      if stored.IsUsable(s.clock) then Goes(s, call, Usable(hash, stored, s.clock)) else Over(s, call)
    case Usable(hash, stored, at) =>
      if Active(s.rows, s.active, stored.userId, stored.id, at) then Goes(s, call, Allowed(hash, stored, at))
      else Over(s, call)
    case Allowed(hash, stored, at) =>
      if CanRotate(s.rows, stored.id, hash) then
        Over(s, call).(rows := Rotated(s.rows, stored.id, hash, token, at, at + s.lifetime),
                       issued := s.issued + {token}, wins := s.wins + [Win(hash, stored.id, at, token)])
      else Over(s, call)
    case Unknown(hash) =>
      if found.Some? then Goes(s, call, Suspect(hash, found.value)) else Over(s, call)
    case Suspect(hash, stored) =>
      if Ends(stored, s.clock) then Goes(s, call, Ending(hash, stored, s.clock)) else Over(s, call)
    case Ending(hash, stored, at) =>
      Over(s, call).(rows := Revoked(s.rows, stored.userId, stored.id, at),
                     reuses := s.reuses + [Reuse(hash, stored.id, at)])
    case SigningOut(hash) =>
      if found.Some? then Goes(s, call, Leaving(found.value)) else Over(s, call)
    case Leaving(stored) =>
      Over(s, call).(rows := Revoked(s.rows, stored.userId, stored.id, s.clock))
  }

  predicate CanRotate(rows: Rows, id: Id, hash: Hash) {
    id in rows && rows[id].tokenHash == hash && rows[id].revokedAt.None?
  }

  function Next(s: State, e: Event): State
    requires e.Step? ==> e.call in s.calls
  {
    match e
    case Login(userId, id, hash) =>
      s.(rows := s.rows[id := LoggedIn(userId, id, hash, s.clock, s.lifetime)], ids := s.ids + {id},
         issued := s.issued + {hash}, began := s.began[id := Start(userId, hash, s.clock)])
    case Refresh(call, hash) => Goes(s, call, Presented(hash))
    case Logout(call, hash) => Goes(s, call, SigningOut(hash))
    case Step(call, found, token) => Stepped(s, call, found, token)
    case Abandon(call) => Over(s, call)
    case EndSession(userId, id) => s.(rows := Revoked(s.rows, userId, id, s.clock))
    case ChangePassword(userId, keep) => s.(rows := OthersRevoked(s.rows, userId, keep, s.clock))
    case SetActive(active) => s.(active := active)
    case CleanUp(before) => s.(rows := FinishedDeleted(s.rows, before))
    case Tick(to) => s.(clock := to)
  }

  // ------------------------------------------------------------- what every step keeps

  /** Every session is known by its own identifier and holds one token no other holds. */
  ghost predicate RowsSound(s: State) {
    && (forall id :: id in s.rows ==> id in s.ids && s.rows[id].id == id && s.rows[id].tokenHash in s.issued)
    && (forall i, j :: i in s.rows && j in s.rows && i != j ==> s.rows[i].tokenHash != s.rows[j].tokenHash)
  }

  /** A token was exchanged once, and opens nothing any more. */
  ghost predicate WinsSound(s: State) {
    && (forall i, j :: 0 <= i < j < |s.wins| ==> s.wins[i].hash != s.wins[j].hash)
    && (forall win :: win in s.wins ==> win.hash in s.issued)
    && (forall win, id :: win in s.wins && id in s.rows ==> s.rows[id].tokenHash != win.hash)
  }

  /** The previous token of a session is one it exchanged, when the row says. */
  ghost predicate Exchanged(s: State, row: Session) {
    row.previous.Some? ==>
      exists win :: win in s.wins && win.hash == row.previous.value && win.session == row.id
          && row.rotatedAt == Some(win.at)
  }

  ghost predicate HistorySound(s: State) {
    forall id :: id in s.rows ==> Exchanged(s, s.rows[id])
  }

  /** What a call has read of a session still names its account, and, for a replay, what
      the session exchanged and when. */
  ghost predicate CallSound(s: State, call: Call) {
    match call
    case Found(_, stored) => Names(s, stored)
    case Usable(_, stored, _) => Names(s, stored)
    case Allowed(_, stored, _) => Names(s, stored)
    case Suspect(hash, stored) => Names(s, stored) && stored.previous == Some(hash) && Exchanged(s, stored)
    case Ending(hash, stored, at) =>
      Names(s, stored) && stored.previous == Some(hash) && Exchanged(s, stored) && Ends(stored, at)
    case Leaving(stored) => Names(s, stored)
    case _ => true
  }

  ghost predicate Names(s: State, stored: Session) {
    stored.id in s.ids && (stored.id in s.rows ==> s.rows[stored.id].userId == stored.userId)
  }

  ghost predicate CallsSound(s: State) {
    forall call :: call in s.calls ==> CallSound(s, s.calls[call])
  }

  /** A session a replay ended had exchanged the replayed token long enough before, and is
      not live any more. */
  ghost predicate ReuseSound(s: State, reuse: Reuse) {
    && (exists win :: win in s.wins && win.hash == reuse.hash && win.session == reuse.session
                      && reuse.at - win.at >= REUSE_GRACE)
    && reuse.session in s.ids && Dead(s, reuse.session)
  }

  ghost predicate Dead(s: State, id: Id) {
    id in s.rows ==> s.rows[id].revokedAt.Some?
  }

  ghost predicate Inv(s: State) {
    && RowsSound(s) && WinsSound(s) && HistorySound(s) && CallsSound(s)
    && forall reuse :: reuse in s.reuses ==> ReuseSound(s, reuse)
  }

  /** Nobody has signed in yet. */
  function Nobody(lifetime: Time, clock: Time): State {
    State(map[], {}, clock, lifetime, map[], {}, {}, map[], [], [])
  }

  lemma Initially(lifetime: Time, clock: Time)
    ensures Inv(Nobody(lifetime, clock))
  {
  }

  /** What changes of the sessions when no token is exchanged: some end, some are removed. */
  ghost predicate OnlyEnds(before: Rows, after: Rows) {
    forall id :: id in after ==>
      id in before && (after[id] == before[id]
                       || (before[id].revokedAt.None? && after[id].revokedAt.Some?
                           && after[id] == before[id].(revokedAt := after[id].revokedAt)))
  }

  /** A step that only ends sessions keeps everything. */
  lemma EndingKeeps(s: State, t: State)
    requires Inv(s) && OnlyEnds(s.rows, t.rows)
    requires t.ids == s.ids && t.issued == s.issued && t.wins == s.wins && t.reuses == s.reuses
    requires forall call :: call in t.calls ==> CallSound(s, t.calls[call])
    ensures Inv(t)
  {
    forall id | id in t.rows ensures Exchanged(t, t.rows[id]) {
      assert Exchanged(s, s.rows[id]);
    }
    forall call | call in t.calls ensures CallSound(t, t.calls[call]) {
      assert CallSound(s, t.calls[call]);
    }
    forall reuse | reuse in t.reuses ensures ReuseSound(t, reuse) {
      assert ReuseSound(s, reuse);
    }
  }

  lemma LoginKeeps(s: State, e: Event)
    requires Inv(s) && Possible(s, e) && e.Login?
    ensures Inv(Next(s, e))
  {
    var t := Next(s, e);
    forall id | id in t.rows ensures Exchanged(t, t.rows[id]) {
      assert id != e.id ==> Exchanged(s, s.rows[id]);
    }
    forall call | call in t.calls ensures CallSound(t, t.calls[call]) {
      assert CallSound(s, t.calls[call]);
    }
    forall reuse | reuse in t.reuses ensures ReuseSound(t, reuse) {
      assert ReuseSound(s, reuse);
    }
  }

  lemma RotateKeeps(s: State, call: Id, token: Hash)
    requires Inv(s) && call in s.calls && s.calls[call].Allowed? && token !in s.issued
    requires CanRotate(s.rows, s.calls[call].stored.id, s.calls[call].hash)
    ensures Inv(Stepped(s, call, None, token))
  {
    var t := Stepped(s, call, None, token);
    var hash, at, rotated := s.calls[call].hash, s.calls[call].at, s.calls[call].stored.id;
    var win := Win(hash, rotated, at, token);
    assert t.wins == s.wins + [win];
    assert win in t.wins;
    assert forall w :: w in s.wins ==> w in t.wins;
    forall id | id in t.rows ensures Exchanged(t, t.rows[id]) {
      if id != rotated {
        assert Exchanged(s, s.rows[id]);
      }
    }
    assert WinsSound(t) by {
      assert s.rows[rotated].tokenHash == hash;
    }
    forall call | call in t.calls ensures CallSound(t, t.calls[call]) {
      assert CallSound(s, t.calls[call]);
    }
    forall reuse | reuse in t.reuses ensures ReuseSound(t, reuse) {
      assert ReuseSound(s, reuse);
    }
  }

  lemma ReuseKeeps(s: State, call: Id)
    requires Inv(s) && call in s.calls && s.calls[call].Ending?
    ensures Inv(Stepped(s, call, None, 0))
  {
    var t := Stepped(s, call, None, 0);
    var c := s.calls[call];
    assert CallSound(s, c);
    EndingKeeps(s, t.(reuses := s.reuses));
    forall reuse | reuse in t.reuses ensures ReuseSound(t, reuse) {
      if reuse in s.reuses {
        assert ReuseSound(t.(reuses := s.reuses), reuse);
      }
    }
  }

  /** Any other statement of a call at most ends a session, and reads only what is there. */
  lemma QuietKeeps(s: State, e: Event)
    requires Inv(s) && Possible(s, e) && e.Step? && !s.calls[e.call].Ending?
    requires var c := s.calls[e.call]; c.Allowed? ==> !CanRotate(s.rows, c.stored.id, c.hash)
    ensures Inv(Next(s, e))
  {
    assert CallSound(s, s.calls[e.call]);
    hide WinsSound;
    EndingKeeps(s, Next(s, e));
  }

  /** Every step keeps the invariant. */
  lemma StepKeeps(s: State, e: Event)
    requires Inv(s) && Possible(s, e)
    ensures Inv(Next(s, e))
  {
    match e
    case Login(_, _, _) => LoginKeeps(s, e);
    case Step(call, _, token) =>
      hide Inv;
      var c := s.calls[call];
      if c.Allowed? && CanRotate(s.rows, c.stored.id, c.hash) {
        RotateKeeps(s, call, token);
      } else if c.Ending? {
        ReuseKeeps(s, call);
      } else {
        QuietKeeps(s, e);
      }
    case _ => EndingKeeps(s, Next(s, e));
  }

  // ------------------------------------------------------------- runs

  ghost predicate Run(s: State, events: seq<Event>)
    decreases |events|
  {
    events == [] || (Possible(s, events[0]) && Run(Next(s, events[0]), events[1..]))
  }

  ghost function After(s: State, events: seq<Event>): State
    requires Run(s, events)
    decreases |events|
  {
    if events == [] then s else After(Next(s, events[0]), events[1..])
  }

  lemma {:induction false} RunKeeps(s: State, events: seq<Event>)
    requires Inv(s) && Run(s, events)
    ensures Inv(After(s, events))
    decreases |events|
  {
    if events != [] {
      StepKeeps(s, events[0]);
      RunKeeps(Next(s, events[0]), events[1..]);
    }
  }

  /** Of all the refreshes of one token, however they interleave, at most one succeeds. */
  lemma {:induction false} OneWinPerToken(s: State, events: seq<Event>, i: nat, j: nat)
    requires Inv(s) && Run(s, events)
    requires i < |After(s, events).wins| && j < |After(s, events).wins|
    ensures After(s, events).wins[i].hash == After(s, events).wins[j].hash ==> i == j
  {
    RunKeeps(s, events);
  }

  lemma {:induction false} WinsStay(s: State, events: seq<Event>)
    requires Run(s, events)
    ensures s.wins <= After(s, events).wins
    decreases |events|
  {
    if events != [] {
      WinsStay(Next(s, events[0]), events[1..]);
    }
  }

  /** A token that was exchanged never opens a session again. */
  lemma {:induction false} ExchangedOpensNothing(s: State, events: seq<Event>, win: Win)
    requires Inv(s) && Run(s, events) && win in s.wins
    ensures Holds(After(s, events).rows, win.hash, None)
  {
    RunKeeps(s, events);
    WinsStay(s, events);
  }

  /** A session that ended is neither revived nor refreshed, whatever happens: its row
      stays as it is until it is removed, and no refresh of it succeeds. */
  lemma {:induction false} EndedStaysEnded(s: State, events: seq<Event>, id: Id)
    requires Inv(s) && Run(s, events) && id in s.ids && Dead(s, id)
    ensures var t := After(s, events);
            && (id in t.rows ==> id in s.rows && t.rows[id] == s.rows[id])
            && forall i :: |s.wins| <= i < |t.wins| ==> t.wins[i].session != id
    decreases |events|
  {
    if events != [] {
      var e, next := events[0], Next(s, events[0]);
      StepKeeps(s, e);
      EndedStep(s, e, id);
      EndedStaysEnded(next, events[1..], id);
      WinsStay(next, events[1..]);
    }
  }

  lemma EndedStep(s: State, e: Event, id: Id)
    requires Inv(s) && Possible(s, e) && id in s.ids && Dead(s, id)
    ensures var t := Next(s, e);
            && id in t.ids && (id in t.rows ==> id in s.rows && t.rows[id] == s.rows[id])
            && s.wins <= t.wins && forall i :: |s.wins| <= i < |t.wins| ==> t.wins[i].session != id
  {
    hide WinsSound;
    hide HistorySound;
    hide CallsSound;
    hide ReuseSound;
    hide Holds;
    hide HeldLast;
  }

  /** Whenever a replay was answered by ending a session, that session had exchanged the
      token at least half a minute earlier, and it is never refreshed again. */
  lemma {:induction false} ReplayEndsTheSession(s: State, events: seq<Event>, reuse: Reuse)
    requires Inv(s) && Run(s, events) && reuse in After(s, events).reuses
    ensures var t := After(s, events);
            && Dead(t, reuse.session)
            && exists win :: win in t.wins && win.hash == reuse.hash && win.session == reuse.session
                             && reuse.at - win.at >= REUSE_GRACE
  {
    RunKeeps(s, events);
    assert ReuseSound(After(s, events), reuse);
  }

  /** The part of a call that answers a replay. */
  predicate Replaying(call: Call) {
    call.Unknown? || call.Suspect? || call.Ending?
  }

  /** A replay changes the sessions at most by ending one: the one that exchanged the
      token it presents, half a minute ago or longer. */
  lemma ReplayChangesOnlyThat(s: State, e: Event)
    requires Inv(s) && Possible(s, e) && e.Step? && Replaying(s.calls[e.call])
    requires Next(s, e).rows != s.rows
    ensures var c := s.calls[e.call];
            && c.Ending? && c.stored.id in s.rows && s.rows[c.stored.id].revokedAt.None?
            && Next(s, e).rows == s.rows[c.stored.id := s.rows[c.stored.id].(revokedAt := Some(c.at))]
            && exists win :: win in s.wins && win.hash == c.hash && win.session == c.stored.id
                             && c.at - win.at >= REUSE_GRACE
  {
    assert CallSound(s, s.calls[e.call]);
  }

  /** A session keeps its identifier and its account through every run. */
  lemma {:induction false} SessionKeepsItself(s: State, events: seq<Event>, id: Id)
    requires Inv(s) && Run(s, events) && id in s.ids
    ensures var t := After(s, events);
            id in t.rows ==> id in s.rows && t.rows[id].id == id && t.rows[id].userId == s.rows[id].userId
    decreases |events|
  {
    if events != [] {
      StepKeeps(s, events[0]);
      assert id in Next(s, events[0]).rows ==> id in s.rows && Next(s, events[0]).rows[id].userId == s.rows[id].userId;
      SessionKeepsItself(Next(s, events[0]), events[1..], id);
    }
    RunKeeps(s, events);
  }

  /** Every state a run reaches keeps the store as its statements need it. */
  lemma ReachedIsKeyed(s: State)
    requires Inv(s)
    ensures Keyed(s.rows)
  {
    forall i, j | i in s.rows && j in s.rows && i != j && s.rows[i].previous.Some?
      ensures s.rows[i].previous != s.rows[j].previous
    {
      assert Exchanged(s, s.rows[i]) && Exchanged(s, s.rows[j]);
      assert forall v, w :: v in s.wins && w in s.wins && v.hash == w.hash ==> v == w;
    }
  }

  /** When nothing comes between its statements, a replay of the token a session exchanged
      last ends that session if and only if it is live and exchanged the token at least
      half a minute ago, and changes no session otherwise. */
  lemma UndisturbedReplay(s: State, call: Id, token: Hash, id: Id)
    requires Inv(s) && call !in s.calls && token !in s.issued
    requires id in s.rows && s.rows[id].previous.Some?
    ensures var hash := s.rows[id].previous.value;
            var s1 := Next(s, Refresh(call, hash));
            var s2 := Next(s1, Step(call, None, token));
            var s3 := Next(s2, Step(call, Some(s.rows[id]), token));
            && Possible(s, Refresh(call, hash)) && Possible(s1, Step(call, None, token))
            && Possible(s2, Step(call, Some(s.rows[id]), token)) && Possible(s3, Step(call, None, token))
            && var s4 := Next(s3, Step(call, None, token));
               if Ends(s.rows[id], s.clock) then
                 && Possible(s4, Step(call, None, token))
                 && Next(s4, Step(call, None, token)).rows == Revoked(s.rows, s.rows[id].userId, id, s.clock)
                 && Next(s4, Step(call, None, token)).reuses == s.reuses + [Reuse(hash, id, s.clock)]
               else s4.rows == s.rows && call !in s4.calls
  {
    assert Exchanged(s, s.rows[id]);
  }

  // ------------------------------------------------------------- calls that run alone

  /** Only statements of one call. */
  predicate Alone(steps: seq<Event>, call: Id, token: Hash) {
    forall i :: 0 <= i < |steps| ==> steps[i].Step? && steps[i].call == call && steps[i].token == token
  }

  /** A call runs from here to its end with nothing in between. */
  ghost predicate RunsOut(s: State, steps: seq<Event>, call: Id, token: Hash) {
    Run(s, steps) && Alone(steps, call, token) && call !in After(s, steps).calls
  }

  lemma {:induction false} NextStep(s: State, steps: seq<Event>, call: Id, token: Hash)
    requires RunsOut(s, steps, call, token)
    ensures call !in s.calls ==> steps == [] && After(s, steps) == s
    ensures call in s.calls ==>
              && steps != [] && steps[0] == Step(call, steps[0].found, token) && Possible(s, steps[0])
              && RunsOut(Next(s, steps[0]), steps[1..], call, token)
              && After(s, steps) == After(Next(s, steps[0]), steps[1..])
  {
  }

  /** What the caller of a call is told, read off what the call did. */
  function Told(s: State, t: State): Outcome {
    if |t.wins| > |s.wins| then Refreshed(t.wins[|t.wins| - 1].session, t.wins[|t.wins| - 1].token)
    else if |t.reuses| > |s.reuses| then TokenReused
    else TokenInvalid
  }

  /** The statements of a refresh, run with nothing in between, do what the refresh does. */
  lemma {:induction false} UndisturbedRefresh(s: State, steps: seq<Event>, call: Id, hash: Hash, token: Hash)
    requires Inv(s) && call !in s.calls
    requires RunsOut(Next(s, Refresh(call, hash)), steps, call, token)
    ensures var t := After(Next(s, Refresh(call, hash)), steps);
            RefreshDoes(s.rows, s.active, hash, token, s.clock, s.lifetime, t.rows, Told(s, t))
  {
    hide Run;
    hide After;
    hide Possible;
    hide RunsOut;
    ReachedIsKeyed(s);
    hide Inv;
    var s1 := Next(s, Refresh(call, hash));
    NextStep(s1, steps, call, token);
    var found := steps[0].found;
    AnswersAre(s1, call, found, token);
    if found.Some? {
      FoundAlone(s, Next(s1, steps[0]), steps[1..], call, hash, found.value, token);
    } else {
      UnknownAlone(s, Next(s1, steps[0]), steps[1..], call, hash, token);
    }
  }

  lemma AnswersAre(s: State, call: Id, found: Option<Session>, token: Hash)
    requires call in s.calls && Possible(s, Step(call, found, token))
    ensures s.calls[call].Presented? || s.calls[call].SigningOut? ==> Holds(s.rows, s.calls[call].hash, found)
    ensures s.calls[call].Unknown? ==> HeldLast(s.rows, s.calls[call].hash, found)
  {
  }

  lemma {:induction false} FoundAlone(before: State, s: State, steps: seq<Event>, call: Id, hash: Hash, stored: Session,
                                      token: Hash)
    requires Keyed(before.rows) && s == Goes(before, call, Found(hash, stored)) && Holds(s.rows, hash, Some(stored))
    requires RunsOut(s, steps, call, token)
    ensures RefreshDoes(before.rows, before.active, hash, token, before.clock, before.lifetime, After(s, steps).rows,
                        Told(before, After(s, steps)))
  {
    hide Run;
    hide After;
    hide Possible;
    hide RunsOut;
    NextStep(s, steps, call, token);
    var s1, rest1 := Next(s, steps[0]), steps[1..];
    NextStep(s1, rest1, call, token);
    if call in s1.calls {
      var s2, rest2 := Next(s1, rest1[0]), rest1[1..];
      NextStep(s2, rest2, call, token);
      if call in s2.calls {
        NextStep(Next(s2, rest2[0]), rest2[1..], call, token);
      }
    }
  }

  lemma {:induction false} UnknownAlone(before: State, s: State, steps: seq<Event>, call: Id, hash: Hash, token: Hash)
    requires Keyed(before.rows) && s == Goes(before, call, Unknown(hash)) && Holds(s.rows, hash, None)
    requires RunsOut(s, steps, call, token)
    ensures RefreshDoes(before.rows, before.active, hash, token, before.clock, before.lifetime, After(s, steps).rows,
                        Told(before, After(s, steps)))
  {
    hide Run;
    hide After;
    hide Possible;
    hide RunsOut;
    NextStep(s, steps, call, token);
    AnswersAre(s, call, steps[0].found, token);
    var s1, rest1 := Next(s, steps[0]), steps[1..];
    NextStep(s1, rest1, call, token);
    if call in s1.calls {
      var s2, rest2 := Next(s1, rest1[0]), rest1[1..];
      NextStep(s2, rest2, call, token);
      if call in s2.calls {
        NextStep(Next(s2, rest2[0]), rest2[1..], call, token);
      }
    }
  }

  /** So do those of signing out. */
  lemma {:induction false} UndisturbedLogout(s: State, steps: seq<Event>, call: Id, hash: Hash, token: Hash)
    requires Inv(s) && call !in s.calls
    requires RunsOut(Next(s, Logout(call, hash)), steps, call, token)
    ensures LogoutDoes(s.rows, hash, s.clock, After(Next(s, Logout(call, hash)), steps).rows)
  {
    hide Run;
    hide After;
    hide Possible;
    hide RunsOut;
    ReachedIsKeyed(s);
    hide Inv;
    var s1 := Next(s, Logout(call, hash));
    NextStep(s1, steps, call, token);
    AnswersAre(s1, call, steps[0].found, token);
    var s2, rest := Next(s1, steps[0]), steps[1..];
    NextStep(s2, rest, call, token);
    if call in s2.calls {
      NextStep(Next(s2, rest[0]), rest[1..], call, token);
    }
  }

  /** How many statements a call has left at most. */
  function Left(call: Call): nat {
    match call
    case Presented(_) => 4
    case Found(_, _) => 3
    case Usable(_, _, _) => 2
    case Allowed(_, _, _) => 1
    case Unknown(_) => 3
    case Suspect(_, _) => 2
    case Ending(_, _, _) => 1
    case SigningOut(_) => 2
    case Leaving(_) => 1
  }

  /** The store has an answer for whatever a call asks it next. */
  lemma {:induction false} Answered(s: State, call: Id, token: Hash) returns (found: Option<Session>)
    requires call in s.calls && token !in s.issued && RowsSound(s)
    ensures Possible(s, Step(call, found, token))
  {
    found := None;
    if s.calls[call].Presented? || s.calls[call].SigningOut? {
      if id :| id in s.rows && s.rows[id].tokenHash == s.calls[call].hash {
        found := Some(s.rows[id]);
      }
    } else if s.calls[call].Unknown? {
      if id :| id in s.rows && s.rows[id].previous == Some(s.calls[call].hash) {
        found := Some(s.rows[id]);
      }
    }
  }

  /** Every statement brings a call nearer its end. */
  lemma Nearer(s: State, call: Id, found: Option<Session>, token: Hash)
    requires call in s.calls && RowsSound(s)
    ensures var t := Stepped(s, call, found, token);
            call in t.calls ==> Left(t.calls[call]) < Left(s.calls[call]) && t.issued == s.issued && RowsSound(t)
  {
    hide Rotated;
    hide Revoked;
    hide Active;
    var t := Stepped(s, call, found, token);
    assert call in t.calls ==> t.rows == s.rows && t.ids == s.ids && t.issued == s.issued;
  }

  /** Every call can run to its end alone. */
  lemma {:induction false} CanRunOut(s: State, call: Id, token: Hash) returns (steps: seq<Event>)
    requires call in s.calls ==> token !in s.issued && RowsSound(s)
    ensures RunsOut(s, steps, call, token)
    decreases if call in s.calls then 1 + Left(s.calls[call]) else 0
  {
    hide RowsSound;
    hide Possible;
    hide Stepped;
    hide Left;
    if call !in s.calls {
      return [];
    }
    var found := Answered(s, call, token);
    Nearer(s, call, found, token);
    var e := Step(call, found, token);
    var rest := CanRunOut(Next(s, e), call, token);
    steps := [e] + rest;
    assert steps[1..] == rest;
  }
}
