/** apps/api/src/routes/auth.ts: rotation of refresh tokens under concurrent requests.

    Tokens are named by their hashes, which the source stores; new tokens and session ids
    are new. The database is two tables whose transactions are atomic, and one clock dates
    both the requests and the rows. */
module RefreshRotation {
  import opened Common

  type Hash = nat
  type User = nat
  type SessionId = nat

  const REFRESH_REUSE_GRACE_MS := 30 * 1000
  const REFRESH_TOKEN_TTL_MS := 7 * 24 * 60 * 60 * 1000

  datatype Session = Session(user: User, current: Hash, previous: Option<Hash>, expiresAt: int)
  datatype Used = Used(user: User, session: SessionId, usedAt: int)

  function Rotated(s: Session, presented: Hash, minted: Hash, now: int): Session {
    s.(current := minted, previous := Some(presented), expiresAt := now + REFRESH_TOKEN_TTL_MS)
  }

  predicate WithinGrace(now: int, usedAt: int) {
    now - usedAt < REFRESH_REUSE_GRACE_MS
  }

  function WithoutUser(sessions: map<SessionId, Session>, user: User): map<SessionId, Session> {
    map id | id in sessions && sessions[id].user != user :: sessions[id]
  }

  function HistoryWithoutUser(used: map<Hash, Used>, user: User): map<Hash, Used> {
    map h | h in used && used[h].user != user :: used[h]
  }

  /** The two tables and the transactions the handlers run on them. */
  class SessionStore {
    var sessions: map<SessionId, Session>
    var used: map<Hash, Used>

    constructor ()
      ensures sessions == map[] && used == map[]
    {
      sessions, used := map[], map[];
    }

    method FindByToken(presented: Hash) returns (found: Option<SessionId>)
      ensures found.Some? ==> found.value in sessions && sessions[found.value].current == presented
      ensures found.None? ==> forall id :: id in sessions ==> sessions[id].current != presented
    {
      var hits := set id | id in sessions && sessions[id].current == presented;
      assert forall id :: id in sessions && sessions[id].current == presented ==> id in hits;
      if hits == {} {
        return None;
      }
      var id :| id in hits;
      found := Some(id);
    }

    /** The compare-and-swap transaction, with the history row in the same transaction. */
    method Rotate(id: SessionId, presented: Hash, minted: Hash, now: int, clock: int) returns (won: bool)
      modifies this
      ensures won <==> id in old(sessions) && old(sessions)[id].current == presented
      ensures won ==> sessions == old(sessions)[id := Rotated(old(sessions)[id], presented, minted, now)]
      ensures won ==> used == old(used)[presented := Used(old(sessions)[id].user, id, clock)]
      ensures !won ==> sessions == old(sessions) && used == old(used)
    {
      if id !in sessions || sessions[id].current != presented {
        return false;
      }
      var s := sessions[id];
      sessions := sessions[id := s.(current := minted, previous := Some(presented),
                                    expiresAt := now + REFRESH_TOKEN_TTL_MS)];
      used := used[presented := Used(s.user, id, clock)];
      won := true;
    }

    method RevokeFamily(user: User)
      modifies this
      ensures sessions == WithoutUser(old(sessions), user) && used == HistoryWithoutUser(old(used), user)
    {
      sessions := map id | id in sessions && sessions[id].user != user :: sessions[id];
      used := map h | h in used && used[h].user != user :: used[h];
    }
  }

  // ── Every interleaving ────────────────────────────────────────────────────

  datatype Reply = Refreshed | Invalid | TokenRotated | TokenReuse

  datatype Pc = Lookup | Rotating(session: SessionId) | History | Revoking(user: User) | Done(reply: Reply)

  /** A refresh in flight, with the `now` it captured; `sawCurrent` remembers that its
      lookup found the token to be some session's current one. */
  datatype Request = Request(token: Hash, now: int, pc: Pc, sawCurrent: bool)

  /** One rotation as it was committed. */
  datatype Rotation = Rotation(session: SessionId, consumed: Hash, minted: Hash, at: int)

  /** `issued` are the tokens used so far, `ids` the session ids with the users who logged
      in, `log` the rotations committed. */
  datatype System = System(
    clock: int, sessions: map<SessionId, Session>, used: map<Hash, Used>, requests: seq<Request>,
    issued: set<Hash>, ids: map<SessionId, User>, log: seq<Rotation>)

  const START := System(0, map[], map[], [], {}, map[], [])

  datatype Event =
    | Tick(ms: nat)
    | Login(id: SessionId, user: User, token: Hash)
    | Remove(gone: set<SessionId>)
    | Present(token: Hash)
    | Find(i: nat, found: Option<SessionId>, active: bool)
    | Commit(i: nat, minted: Hash)
    | Consult(i: nat)
    | Revoke(i: nat)

  predicate At(s: System, i: nat, pc: Pc) {
    i < |s.requests| && s.requests[i].pc == pc
  }

  function Advance(s: System, i: nat, pc: Pc): System
    requires i < |s.requests|
  {
    s.(requests := s.requests[i := s.requests[i].(pc := pc)])
  }

  predicate FoundRight(s: System, token: Hash, found: Option<SessionId>) {
    match found
    case Some(id) => id in s.sessions && s.sessions[id].current == token
    case None => forall id :: id in s.sessions ==> s.sessions[id].current != token
  }

  function FindStep(s: System, i: nat, found: Option<SessionId>, active: bool): System
    requires i < |s.requests| && FoundRight(s, s.requests[i].token, found)
  {
    if found.None? then Advance(s, i, History)
    else if s.sessions[found.value].expiresAt < s.requests[i].now || !active then Advance(s, i, Done(Invalid))
    else s.(requests := s.requests[i := s.requests[i].(pc := Rotating(found.value), sawCurrent := true)])
  }

  function CommitStep(s: System, i: nat, minted: Hash): System
    requires i < |s.requests| && s.requests[i].pc.Rotating?
  {
    var r := s.requests[i];
    var id := r.pc.session;
    var s1 := s.(issued := s.issued + {minted});
    if id in s.sessions && s.sessions[id].current == r.token then
      Advance(s1, i, Done(Refreshed)).(
        sessions := s.sessions[id := Rotated(s.sessions[id], r.token, minted, r.now)],
        used := s.used[r.token := Used(s.sessions[id].user, id, s.clock)],
        log := s.log + [Rotation(id, r.token, minted, s.clock)])
    else Advance(s1, i, History)
  }

  function ConsultStep(s: System, i: nat): System
    requires i < |s.requests|
  {
    var r := s.requests[i];
    if r.token !in s.used then Advance(s, i, Done(Invalid))
    else if WithinGrace(r.now, s.used[r.token].usedAt) then Advance(s, i, Done(TokenRotated))
    else Advance(s, i, Revoking(s.used[r.token].user))
  }

  function RevokeStep(s: System, i: nat): System
    requires i < |s.requests| && s.requests[i].pc.Revoking?
  {
    var user := s.requests[i].pc.user;
    Advance(s, i, Done(TokenReuse)).(
      sessions := WithoutUser(s.sessions, user), used := HistoryWithoutUser(s.used, user))
  }

  /** One step; an event that cannot happen in `s` changes nothing. `Remove` stands for
      logout, revoked and pruned sessions and the expiry sweep. */
  function Apply(s: System, e: Event): System {
    match e
    case Tick(ms) => s.(clock := s.clock + ms)
    case Login(id, user, token) =>
      if id in s.ids || token in s.issued then s
      else s.(sessions := s.sessions[id := Session(user, token, None, s.clock + REFRESH_TOKEN_TTL_MS)],
              ids := s.ids[id := user], issued := s.issued + {token})
    case Remove(gone) => s.(sessions := s.sessions - gone)
    case Present(token) => s.(requests := s.requests + [Request(token, s.clock, Lookup, false)])
    case Find(i, found, active) =>
      if At(s, i, Lookup) && FoundRight(s, s.requests[i].token, found) then FindStep(s, i, found, active) else s
    case Commit(i, minted) =>
      if i < |s.requests| && s.requests[i].pc.Rotating? && minted !in s.issued then CommitStep(s, i, minted) else s
    case Consult(i) => if At(s, i, History) then ConsultStep(s, i) else s
    case Revoke(i) => if i < |s.requests| && s.requests[i].pc.Revoking? then RevokeStep(s, i) else s
  }

  function Exec(s: System, events: seq<Event>): System
    decreases |events|
  {
    if events == [] then s else Exec(Apply(s, events[0]), events[1..])
  }

  // ── What the log says ─────────────────────────────────────────────────────

  /** When a token was consumed, if it was. */
  function ConsumedAt(log: seq<Rotation>, h: Hash): Option<int> {
    if log == [] then None
    else if log[|log| - 1].consumed == h then Some(log[|log| - 1].at)
    else ConsumedAt(log[..|log| - 1], h)
  }

  function TimesRotated(log: seq<Rotation>, h: Hash): nat {
    if log == [] then 0
    else TimesRotated(log[..|log| - 1], h) + (if log[|log| - 1].consumed == h then 1 else 0)
  }

  /** The latest rotation of a session. */
  function Latest(log: seq<Rotation>, id: SessionId): Option<Rotation> {
    if log == [] then None
    else if log[|log| - 1].session == id then Some(log[|log| - 1])
    else Latest(log[..|log| - 1], id)
  }

  lemma {:induction false} LogAppend(log: seq<Rotation>, r: Rotation)
    ensures forall h :: ConsumedAt(log + [r], h) == if r.consumed == h then Some(r.at) else ConsumedAt(log, h)
    ensures forall h :: TimesRotated(log + [r], h) == TimesRotated(log, h) + (if r.consumed == h then 1 else 0)
    ensures forall id :: Latest(log + [r], id) == if r.session == id then Some(r) else Latest(log, id)
  {
    assert (log + [r])[..|log|] == log;
  }

  /** The rotations of each session form one line: each consumes what the one before
      issued. */
  predicate Linear(log: seq<Rotation>) {
    log == [] ||
    var r := log[|log| - 1];
    var before := log[..|log| - 1];
    Linear(before) && (Latest(before, r.session).Some? ==> r.consumed == Latest(before, r.session).value.minted)
  }

  // ── What every step keeps ─────────────────────────────────────────────────

  ghost predicate LogOk(s: System) {
    && Linear(s.log)
    && (forall h :: TimesRotated(s.log, h) == if ConsumedAt(s.log, h).Some? then 1 else 0)
    && (forall h :: ConsumedAt(s.log, h).Some? ==> h in s.issued && ConsumedAt(s.log, h).value <= s.clock)
    && (forall id :: Latest(s.log, id).Some? ==> id in s.ids)
  }

  ghost predicate SessionsOk(s: System) {
    && (forall id :: id in s.sessions ==> id in s.ids && s.sessions[id].current in s.issued)
    && (forall id :: id in s.sessions ==> ConsumedAt(s.log, s.sessions[id].current).None?)
    && (forall a, b :: a in s.sessions && b in s.sessions && a != b ==> s.sessions[a].current != s.sessions[b].current)
    && (forall id :: id in s.sessions ==>
          match Latest(s.log, id)
          case None => s.sessions[id].previous.None?
          case Some(r) => s.sessions[id].previous == Some(r.consumed) && s.sessions[id].current == r.minted)
  }

  ghost predicate HistoryOk(s: System) {
    forall h :: h in s.used ==> ConsumedAt(s.log, h) == Some(s.used[h].usedAt)
  }

  /** A request that saw its token as current cannot find it consumed before its own time;
      one that revokes a family found it consumed a grace period before. */
  predicate RequestOk(s: System, r: Request) {
    && r.now <= s.clock
    && (r.sawCurrent ==>
          && (ConsumedAt(s.log, r.token).Some? ==> r.now <= ConsumedAt(s.log, r.token).value)
          && !r.pc.Revoking? && r.pc != Done(TokenReuse))
    && (r.pc.Rotating? ==> r.sawCurrent)
    && (r.pc.Revoking? || r.pc == Done(TokenReuse) ==>
          ConsumedAt(s.log, r.token).Some? && !WithinGrace(r.now, ConsumedAt(s.log, r.token).value))
  }

  ghost predicate RequestsOk(s: System) {
    forall i :: 0 <= i < |s.requests| ==> RequestOk(s, s.requests[i])
  }

  ghost predicate Inv(s: System) {
    LogOk(s) && SessionsOk(s) && HistoryOk(s) && RequestsOk(s)
  }

  lemma {:induction false} LoginKeepsInv(s: System, e: Event)
    requires Inv(s) && e.Login?
    ensures Inv(Apply(s, e))
  {
  }

  lemma {:induction false} PresentKeepsInv(s: System, e: Event)
    requires Inv(s) && (e.Remove? || e.Tick? || e.Present?)
    ensures Inv(Apply(s, e))
  {
  }

  lemma {:induction false} FindKeepsInv(s: System, i: nat, found: Option<SessionId>, active: bool)
    requires Inv(s) && At(s, i, Lookup) && FoundRight(s, s.requests[i].token, found)
    ensures Inv(FindStep(s, i, found, active))
  {
  }

  lemma {:induction false} ConsultKeepsInv(s: System, i: nat)
    requires Inv(s) && At(s, i, History)
    ensures Inv(ConsultStep(s, i))
  {
  }

  lemma {:induction false} RevokeKeepsInv(s: System, i: nat)
    requires Inv(s) && i < |s.requests| && s.requests[i].pc.Revoking?
    ensures Inv(RevokeStep(s, i))
  {
  }

  /** A request that still sees its token as current: the token was never consumed, so the
      history row never clashes with another one. */
  lemma {:induction false} WinnerConsumesFirst(s: System, i: nat)
    requires Inv(s) && i < |s.requests| && s.requests[i].pc.Rotating?
    requires FoundRight(s, s.requests[i].token, Some(s.requests[i].pc.session))
    ensures ConsumedAt(s.log, s.requests[i].token).None? && s.requests[i].token !in s.used
  {
  }

  lemma {:induction false} WinKeepsLog(s: System, i: nat, minted: Hash)
    requires Inv(s) && i < |s.requests| && s.requests[i].pc.Rotating?
    requires FoundRight(s, s.requests[i].token, Some(s.requests[i].pc.session))
    ensures LogOk(CommitStep(s, i, minted))
  {
    var r := Rotation(s.requests[i].pc.session, s.requests[i].token, minted, s.clock);
    LogAppend(s.log, r);
    assert (s.log + [r])[..|s.log|] == s.log;
  }

  lemma {:induction false} WinKeepsSessions(s: System, i: nat, minted: Hash)
    requires Inv(s) && i < |s.requests| && s.requests[i].pc.Rotating? && minted !in s.issued
    requires FoundRight(s, s.requests[i].token, Some(s.requests[i].pc.session))
    ensures SessionsOk(CommitStep(s, i, minted))
  {
    LogAppend(s.log, Rotation(s.requests[i].pc.session, s.requests[i].token, minted, s.clock));
  }

  lemma {:induction false} WinKeepsHistory(s: System, i: nat, minted: Hash)
    requires Inv(s) && i < |s.requests| && s.requests[i].pc.Rotating?
    requires FoundRight(s, s.requests[i].token, Some(s.requests[i].pc.session))
    ensures HistoryOk(CommitStep(s, i, minted))
  {
    WinnerConsumesFirst(s, i);
    LogAppend(s.log, Rotation(s.requests[i].pc.session, s.requests[i].token, minted, s.clock));
  }

  lemma {:induction false} WinKeepsRequests(s: System, i: nat, minted: Hash)
    requires Inv(s) && i < |s.requests| && s.requests[i].pc.Rotating?
    requires FoundRight(s, s.requests[i].token, Some(s.requests[i].pc.session))
    ensures RequestsOk(CommitStep(s, i, minted))
  {
    WinnerConsumesFirst(s, i);
    LogAppend(s.log, Rotation(s.requests[i].pc.session, s.requests[i].token, minted, s.clock));
  }

  lemma {:induction false} CommitKeepsInv(s: System, i: nat, minted: Hash)
    requires Inv(s) && i < |s.requests| && s.requests[i].pc.Rotating? && minted !in s.issued
    ensures Inv(CommitStep(s, i, minted))
  {
    if FoundRight(s, s.requests[i].token, Some(s.requests[i].pc.session)) {
      WinKeepsLog(s, i, minted);
      WinKeepsSessions(s, i, minted);
      WinKeepsHistory(s, i, minted);
      WinKeepsRequests(s, i, minted);
    }
  }

  lemma {:induction false} StepKeepsInv(s: System, e: Event)
    requires Inv(s)
    ensures Inv(Apply(s, e))
  {
    match e
    case Find(i, found, active) =>
      if At(s, i, Lookup) && FoundRight(s, s.requests[i].token, found) {
        FindKeepsInv(s, i, found, active);
      }
    case Commit(i, minted) =>
      if i < |s.requests| && s.requests[i].pc.Rotating? && minted !in s.issued {
        CommitKeepsInv(s, i, minted);
      }
    case Consult(i) =>
      if At(s, i, History) {
        ConsultKeepsInv(s, i);
      }
    case Revoke(i) =>
      if i < |s.requests| && s.requests[i].pc.Revoking? {
        RevokeKeepsInv(s, i);
      }
    case Login(_, _, _) => LoginKeepsInv(s, e);
    case _ => PresentKeepsInv(s, e);
  }

  lemma {:induction false} RunKeepsInv(s: System, events: seq<Event>)
    requires Inv(s)
    ensures Inv(Exec(s, events))
    decreases |events|
  {
    if events == [] {
    } else {
      StepKeepsInv(s, events[0]);
      RunKeepsInv(Apply(s, events[0]), events[1..]);
    }
  }

  // ── Rotation is linear ────────────────────────────────────────────────────

  /** In every interleaving a token is rotated at most once, a consumed token is no
      session's current one, no token is both current and in the history, and the previous
      token of a session is the one its latest rotation consumed. */
  lemma {:induction false} RotationIsLinear(events: seq<Event>, h: Hash, id: SessionId)
    ensures var s := Exec(START, events);
            && TimesRotated(s.log, h) <= 1
            && (id in s.sessions && s.sessions[id].current == h ==> TimesRotated(s.log, h) == 0 && h !in s.used)
            && (h in s.used ==> TimesRotated(s.log, h) == 1)
            && (id in s.sessions ==>
                  s.sessions[id].previous == match Latest(s.log, id) {
                    case None => None
                    case Some(r) => Some(r.consumed)
                  })
  {
    RunKeepsInv(START, events);
  }

  lemma {:induction false} LatestIsLast(log: seq<Rotation>, i: nat)
    requires i < |log| && forall k :: i < k < |log| ==> log[k].session != log[i].session
    ensures Latest(log, log[i].session) == Some(log[i])
  {
    if i < |log| - 1 {
      LatestIsLast(log[..|log| - 1], i);
    }
  }

  lemma {:induction false} LinearNeighbours(log: seq<Rotation>, i: nat, j: nat)
    requires Linear(log) && i < j < |log| && log[i].session == log[j].session
    requires forall k :: i < k < j ==> log[k].session != log[i].session
    ensures log[j].consumed == log[i].minted
  {
    if j == |log| - 1 {
      LatestIsLast(log[..j], i);
    } else {
      LinearNeighbours(log[..|log| - 1], i, j);
    }
  }

  /** Two successive rotations of a session meet: the later consumes the token the earlier
      issued. */
  lemma {:induction false} RotationsMeet(events: seq<Event>, i: nat, j: nat)
    ensures var log := Exec(START, events).log;
            i < j < |log| && log[i].session == log[j].session
            && (forall k :: i < k < j ==> log[k].session != log[i].session)
            ==> log[j].consumed == log[i].minted
  {
    RunKeepsInv(START, events);
    var log := Exec(START, events).log;
    if i < j < |log| && log[i].session == log[j].session
       && forall k :: i < k < j ==> log[k].session != log[i].session {
      LinearNeighbours(log, i, j);
    }
  }

  /** A refresh that saw its token as current, and lost the race or its session, is never
      answered with TOKEN_REUSE and revokes nothing. */
  lemma {:induction false} LoserIsNoThief(events: seq<Event>, i: nat)
    ensures var s := Exec(START, events);
            i < |s.requests| && s.requests[i].sawCurrent ==>
              !s.requests[i].pc.Revoking? && s.requests[i].pc != Done(TokenReuse)
  {
    RunKeepsInv(START, events);
  }

  /** A family is revoked only for a token that was rotated away at least a grace period
      before the request came in. */
  lemma {:induction false} RevokedOnlyAfterGrace(events: seq<Event>, i: nat)
    ensures var s := Exec(START, events);
            i < |s.requests| && (s.requests[i].pc.Revoking? || s.requests[i].pc == Done(TokenReuse)) ==>
              && TimesRotated(s.log, s.requests[i].token) == 1
              && ConsumedAt(s.log, s.requests[i].token).Some?
              && s.requests[i].now - ConsumedAt(s.log, s.requests[i].token).value >= REFRESH_REUSE_GRACE_MS
  {
    RunKeepsInv(START, events);
  }

  /** The transaction that wins never meets an older history row for its token. */
  lemma {:induction false} HistoryNeverClashes(events: seq<Event>, i: nat, minted: Hash)
    ensures var s := Exec(START, events);
            var t := Apply(s, Commit(i, minted));
            |t.log| > |s.log| ==>
              t.log[|s.log|].consumed !in s.used && t.used.Keys == s.used.Keys + {t.log[|s.log|].consumed}
  {
    RunKeepsInv(START, events);
    var s := Exec(START, events);
    if |Apply(s, Commit(i, minted)).log| > |s.log| {
      WinnerConsumesFirst(s, i);
    }
  }
}
