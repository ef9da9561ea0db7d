/** How a refresh is answered, in both directions: what each step decides, and what becomes
    of a token that is presented again after it was rotated away. */
module RefreshReplies {
  import opened Common
  import opened RefreshRotation

  // ── What each step decides ────────────────────────────────────────────────

  /** A token that is current, of an active user and not expired, goes on to rotate; one that
      is current otherwise is invalid; any other is looked up in the history. */
  lemma {:induction false} FindDecides(s: System, i: nat, found: Option<SessionId>, active: bool)
    requires At(s, i, Lookup)
    requires match found
             case Some(id) => id in s.sessions && s.sessions[id].current == s.requests[i].token
             case None => forall id :: id in s.sessions ==> s.sessions[id].current != s.requests[i].token
    ensures var t := Apply(s, Find(i, found, active));
            && t.sessions == s.sessions && t.used == s.used && t.log == s.log && i < |t.requests|
            && t.requests[i].pc ==
                 if found.None? then History
                 else if s.sessions[found.value].expiresAt < s.requests[i].now || !active then Done(Invalid)
                 else Rotating(found.value)
  {
  }

  /** A rotation succeeds exactly if the session still has the presented token. Then it has
      the minted one, seven days from the request, remembers the presented one, and the
      history says whose it was and when it was consumed. */
  lemma {:induction false} CommitDecides(s: System, i: nat, minted: Hash)
    requires i < |s.requests| && s.requests[i].pc.Rotating? && minted !in s.issued
    ensures var r := s.requests[i];
            var id := r.pc.session;
            var t := Apply(s, Commit(i, minted));
            && i < |t.requests|
            && if id in s.sessions && s.sessions[id].current == r.token then
                 && t.requests[i].pc == Done(Refreshed)
                 && t.sessions.Keys == s.sessions.Keys
                 && (forall k :: k in s.sessions && k != id ==> t.sessions[k] == s.sessions[k])
                 && t.sessions[id] == Session(s.sessions[id].user, minted, Some(r.token), r.now + 604800000)
                 && t.used.Keys == s.used.Keys + {r.token}
                 && (forall h :: h in s.used && h != r.token ==> t.used[h] == s.used[h])
                 && t.used[r.token] == Used(s.sessions[id].user, id, s.clock)
               else
                 t.requests[i].pc == History && t.sessions == s.sessions && t.used == s.used
  {
  }

  /** A login makes a session that has never rotated and lasts seven days. */
  lemma {:induction false} LoginDecides(s: System, id: SessionId, user: User, token: Hash)
    requires id !in s.ids && token !in s.issued
    ensures var t := Apply(s, Login(id, user, token));
            && t.sessions.Keys == s.sessions.Keys + {id}
            && t.sessions[id] == Session(user, token, None, s.clock + 604800000)
            && t.ids.Keys == s.ids.Keys + {id} && t.ids[id] == user && t.used == s.used
  {
  }

  /** A request is stamped when it comes, and time and pruning touch nothing else. */
  lemma {:induction false} ArrivalDecides(s: System, token: Hash, ms: nat, gone: set<SessionId>)
    ensures Apply(s, Present(token)) == s.(requests := s.requests + [Request(token, s.clock, Lookup, false)])
    ensures Apply(s, Tick(ms)) == s.(clock := s.clock + ms)
    ensures Apply(s, Remove(gone)).sessions.Keys == s.sessions.Keys - gone
    ensures Apply(s, Remove(gone)).used == s.used && Apply(s, Remove(gone)).requests == s.requests
  {
  }

  /** A token unknown to the history is invalid; one consumed less than thirty seconds before
      the request is answered as rotated and nothing is touched; an older one revokes. */
  lemma {:induction false} ConsultDecides(s: System, i: nat)
    requires At(s, i, History)
    ensures var r := s.requests[i];
            var t := Apply(s, Consult(i));
            && t.sessions == s.sessions && t.used == s.used && t.log == s.log && i < |t.requests|
            && t.requests[i].pc ==
                 if r.token !in s.used then Done(Invalid)
                 else if r.now - s.used[r.token].usedAt < 30000 then Done(TokenRotated)
                 else Revoking(s.used[r.token].user)
  {
  }

  /** Reuse after the grace: the reply says so, and exactly that user's sessions and history
      are gone. */
  lemma {:induction false} ReuseRevokes(s: System, i: nat)
    requires At(s, i, History) && s.requests[i].token in s.used
    requires s.requests[i].now - s.used[s.requests[i].token].usedAt >= 30000
    ensures var user := s.used[s.requests[i].token].user;
            var t := Apply(Apply(s, Consult(i)), Revoke(i));
            && i < |t.requests| && t.requests[i].pc == Done(TokenReuse)
            && (forall id :: id in t.sessions <==> id in s.sessions && s.sessions[id].user != user)
            && (forall id :: id in t.sessions ==> t.sessions[id] == s.sessions[id])
            && (forall h :: h in t.used <==> h in s.used && s.used[h].user != user)
            && (forall h :: h in t.used ==> t.used[h] == s.used[h])
  {
  }

  // ── Whose session, whose token ────────────────────────────────────────────

  /** The session that consumed a token, if any did. */
  function ConsumedBy(log: seq<Rotation>, h: Hash): Option<SessionId> {
    if log == [] then None
    else if log[|log| - 1].consumed == h then Some(log[|log| - 1].session)
    else ConsumedBy(log[..|log| - 1], h)
  }

  lemma {:induction false} ConsumedByAppend(log: seq<Rotation>, r: Rotation)
    ensures forall h :: ConsumedBy(log + [r], h) == if r.consumed == h then Some(r.session) else ConsumedBy(log, h)
  {
    assert (log + [r])[..|log|] == log;
  }

  /** Some request of that user's family was answered as reuse. */
  ghost predicate Caught(s: System, user: User) {
    exists j :: 0 <= j < |s.requests| && s.requests[j].pc == Done(TokenReuse)
                && OwnerOf(s, s.requests[j].token) == Some(user)
  }

  /** The user who logged in the session that consumed the token. */
  function OwnerOf(s: System, h: Hash): Option<User> {
    match ConsumedBy(s.log, h)
    case None => None
    case Some(id) => if id in s.ids then Some(s.ids[id]) else None
  }

  ghost predicate SessionsOwned(s: System) {
    && (forall id :: id in s.sessions ==> id in s.ids && s.sessions[id].user == s.ids[id])
    && (forall k :: 0 <= k < |s.log| ==> s.log[k].session in s.ids)
  }

  ghost predicate HistoryOwned(s: System) {
    forall h :: h in s.used ==> OwnerOf(s, h) == Some(s.used[h].user) && ConsumedBy(s.log, h) == Some(s.used[h].session)
  }

  ghost predicate RevokersOwned(s: System) {
    forall i :: 0 <= i < |s.requests| && s.requests[i].pc.Revoking? ==>
                  OwnerOf(s, s.requests[i].token) == Some(s.requests[i].pc.user)
  }

  /** A consumed token is in the history unless its user's family was caught. */
  ghost predicate HistoryComplete(s: System) {
    forall h :: OwnerOf(s, h).Some? ==> h in s.used || Caught(s, OwnerOf(s, h).value)
  }

  /** What a replay has become: it is on its way to being caught, was caught, or found its
      family caught already. */
  ghost predicate ReplayOk(s: System, r: Request) {
    ConsumedAt(s.log, r.token).Some? && r.now - ConsumedAt(s.log, r.token).value >= 30000 ==>
      || r.pc == Lookup || r.pc == History || r.pc.Revoking? || r.pc == Done(TokenReuse)
      || (r.pc == Done(Invalid) && OwnerOf(s, r.token).Some? && Caught(s, OwnerOf(s, r.token).value))
  }

  ghost predicate ReplaysOk(s: System) {
    forall i :: 0 <= i < |s.requests| ==> ReplayOk(s, s.requests[i])
  }

  ghost predicate Owned(s: System) {
    SessionsOwned(s) && HistoryOwned(s) && RevokersOwned(s) && HistoryComplete(s) && ReplaysOk(s)
  }

  // ── What every step keeps ─────────────────────────────────────────────────

  lemma {:induction false} ConsumerLogged(log: seq<Rotation>, h: Hash)
    ensures ConsumedBy(log, h).Some? <==> ConsumedAt(log, h).Some?
    ensures ConsumedBy(log, h).Some? ==> exists k :: 0 <= k < |log| && log[k].session == ConsumedBy(log, h).value
  {
    if log == [] {
    } else {
      var front, last := log[..|log| - 1], log[|log| - 1];
      ConsumerLogged(front, h);
      if last.consumed == h {
        assert log[|log| - 1].session == last.session;
      } else if ConsumedBy(front, h).Some? {
        var k :| 0 <= k < |front| && front[k].session == ConsumedBy(front, h).value;
        assert log[k].session == front[k].session;
      }
    }
  }

  lemma {:induction false} ConsumedHasOwner(s: System, h: Hash)
    requires SessionsOwned(s)
    ensures OwnerOf(s, h).Some? <==> ConsumedAt(s.log, h).Some?
  {
    ConsumerLogged(s.log, h);
  }

  /** The owner of a consumed token never changes. */
  ghost predicate SameOwners(s: System, t: System) {
    forall h :: OwnerOf(s, h).Some? ==> OwnerOf(t, h) == OwnerOf(s, h)
  }

  lemma {:induction false} CaughtStays(s: System, t: System, user: User)
    requires Caught(s, user) && SameOwners(s, t) && |s.requests| <= |t.requests|
    requires forall i :: 0 <= i < |s.requests| && s.requests[i].pc.Done? ==> t.requests[i] == s.requests[i]
    ensures Caught(t, user)
  {
    var j :| 0 <= j < |s.requests| && s.requests[j].pc == Done(TokenReuse)
             && OwnerOf(s, s.requests[j].token) == Some(user);
    assert t.requests[j] == s.requests[j];
  }

  lemma {:induction false} DoneStays(s: System, e: Event)
    ensures |s.requests| <= |Apply(s, e).requests|
    ensures forall i :: 0 <= i < |s.requests| && s.requests[i].pc.Done? ==> Apply(s, e).requests[i] == s.requests[i]
  {
  }

  predicate Wins(s: System, e: Event) {
    && e.Commit? && e.i < |s.requests| && s.requests[e.i].pc.Rotating? && e.minted !in s.issued
    && s.requests[e.i].pc.session in s.sessions
    && s.sessions[s.requests[e.i].pc.session].current == s.requests[e.i].token
  }

  lemma {:induction false} LogStays(s: System, e: Event)
    requires !Wins(s, e)
    ensures Apply(s, e).log == s.log
    ensures e.Login? || Apply(s, e).ids == s.ids
  {
  }

  lemma {:induction false} LoginAdds(s: System, e: Event)
    requires e.Login?
    ensures forall id :: id in s.ids ==> id in Apply(s, e).ids && Apply(s, e).ids[id] == s.ids[id]
  {
  }

  lemma {:induction false} OwnersStay(s: System, e: Event)
    requires Inv(s) && SessionsOwned(s)
    ensures SameOwners(s, Apply(s, e))
  {
    var t := Apply(s, e);
    forall h | OwnerOf(s, h).Some?
      ensures OwnerOf(t, h) == OwnerOf(s, h)
    {
      if Wins(s, e) {
        var r := s.requests[e.i];
        ConsumedByAppend(s.log, Rotation(r.pc.session, r.token, e.minted, s.clock));
        ConsumedHasOwner(s, h);
        WinnerConsumesFirst(s, e.i);
      } else {
        LogStays(s, e);
        if e.Login? {
          LoginAdds(s, e);
        }
      }
    }
  }

  lemma {:induction false} NoNewOwners(s: System, e: Event, h: Hash)
    requires SessionsOwned(s) && !Wins(s, e)
    ensures OwnerOf(Apply(s, e), h).Some? ==> OwnerOf(s, h).Some?
  {
    LogStays(s, e);
    ConsumerLogged(s.log, h);
  }

  lemma {:induction false} StepKeepsSessionsOwned(s: System, e: Event)
    requires Inv(s) && SessionsOwned(s)
    ensures SessionsOwned(Apply(s, e))
  {
  }

  lemma {:induction false} WinKeepsHistoryOwned(s: System, e: Event)
    requires Inv(s) && SessionsOwned(s) && HistoryOwned(s) && Wins(s, e)
    ensures HistoryOwned(Apply(s, e))
  {
    var r := s.requests[e.i];
    OwnersStay(s, e);
    ConsumedByAppend(s.log, Rotation(r.pc.session, r.token, e.minted, s.clock));
  }

  lemma {:induction false} OtherKeepsHistoryOwned(s: System, e: Event)
    requires Inv(s) && SessionsOwned(s) && HistoryOwned(s) && !Wins(s, e)
    ensures HistoryOwned(Apply(s, e))
  {
    OwnersStay(s, e);
    LogStays(s, e);
    UsedShrinks(s, e);
  }

  lemma {:induction false} UsedShrinks(s: System, e: Event)
    requires !Wins(s, e)
    ensures forall h :: h in Apply(s, e).used ==> h in s.used && Apply(s, e).used[h] == s.used[h]
  {
  }

  lemma {:induction false} StepKeepsHistoryOwned(s: System, e: Event)
    requires Inv(s) && SessionsOwned(s) && HistoryOwned(s)
    ensures HistoryOwned(Apply(s, e))
  {
    if Wins(s, e) {
      WinKeepsHistoryOwned(s, e);
    } else {
      OtherKeepsHistoryOwned(s, e);
    }
  }

  /** A request revokes because it did, or because it has just found its token's row. */
  lemma {:induction false} RevokersFoundRow(s: System, e: Event, i: nat)
    requires i < |Apply(s, e).requests| && Apply(s, e).requests[i].pc.Revoking?
    ensures i < |s.requests| && Apply(s, e).requests[i].token == s.requests[i].token
    ensures var h := s.requests[i].token;
            var user := Apply(s, e).requests[i].pc.user;
            s.requests[i].pc == Revoking(user) || (h in s.used && s.used[h].user == user)
  {
  }

  lemma {:induction false} StepKeepsRevokersOwned(s: System, e: Event)
    requires Inv(s) && SessionsOwned(s) && HistoryOwned(s) && RevokersOwned(s)
    ensures RevokersOwned(Apply(s, e))
  {
    var t := Apply(s, e);
    OwnersStay(s, e);
    forall i | 0 <= i < |t.requests| && t.requests[i].pc.Revoking?
      ensures OwnerOf(t, t.requests[i].token) == Some(t.requests[i].pc.user)
    {
      RevokersFoundRow(s, e, i);
    }
  }

  lemma {:induction false} WinKeepsComplete(s: System, e: Event)
    requires Inv(s) && SessionsOwned(s) && HistoryComplete(s) && Wins(s, e)
    ensures HistoryComplete(Apply(s, e))
  {
    var t, r := Apply(s, e), s.requests[e.i];
    OwnersStay(s, e);
    DoneStays(s, e);
    ConsumedByAppend(s.log, Rotation(r.pc.session, r.token, e.minted, s.clock));
    forall h | OwnerOf(t, h).Some?
      ensures h in t.used || Caught(t, OwnerOf(t, h).value)
    {
      if h != r.token && h !in s.used {
        CaughtStays(s, t, OwnerOf(s, h).value);
      }
    }
  }

  lemma {:induction false} RevokeKeepsComplete(s: System, e: Event)
    requires Inv(s) && SessionsOwned(s) && HistoryOwned(s) && RevokersOwned(s) && HistoryComplete(s)
    requires e.Revoke? && e.i < |s.requests| && s.requests[e.i].pc.Revoking?
    ensures HistoryComplete(Apply(s, e))
  {
    var t, user := Apply(s, e), s.requests[e.i].pc.user;
    OwnersStay(s, e);
    DoneStays(s, e);
    assert Caught(t, user) by {
      assert t.requests[e.i].pc == Done(TokenReuse) && OwnerOf(t, t.requests[e.i].token) == Some(user);
    }
    forall h | OwnerOf(t, h).Some?
      ensures h in t.used || Caught(t, OwnerOf(t, h).value)
    {
      NoNewOwners(s, e, h);
      if h !in s.used {
        CaughtStays(s, t, OwnerOf(s, h).value);
      }
    }
  }

  lemma {:induction false} OtherKeepsComplete(s: System, e: Event)
    requires Inv(s) && SessionsOwned(s) && HistoryComplete(s) && !Wins(s, e) && !e.Revoke?
    ensures HistoryComplete(Apply(s, e))
  {
    var t := Apply(s, e);
    OwnersStay(s, e);
    DoneStays(s, e);
    UsedStays(s, e);
    forall h | OwnerOf(t, h).Some?
      ensures h in t.used || Caught(t, OwnerOf(t, h).value)
    {
      NoNewOwners(s, e, h);
      if h !in s.used {
        CaughtStays(s, t, OwnerOf(s, h).value);
      }
    }
  }

  lemma {:induction false} UsedStays(s: System, e: Event)
    requires !Wins(s, e) && !e.Revoke?
    ensures Apply(s, e).used == s.used
  {
  }

  lemma {:induction false} StepKeepsComplete(s: System, e: Event)
    requires Inv(s) && SessionsOwned(s) && HistoryOwned(s) && RevokersOwned(s) && HistoryComplete(s)
    ensures HistoryComplete(Apply(s, e))
  {
    if Wins(s, e) {
      WinKeepsComplete(s, e);
    } else if e.Revoke? && e.i < |s.requests| && s.requests[e.i].pc.Revoking? {
      RevokeKeepsComplete(s, e);
    } else if !e.Revoke? {
      OtherKeepsComplete(s, e);
    }
  }

  predicate Moves(s: System, e: Event, i: nat) {
    match e
    case Find(j, _, _) => i == j
    case Commit(j, _) => i == j
    case Consult(j) => i == j
    case Revoke(j) => i == j
    case _ => false
  }

  /** A step moves one request; a new one waits for its lookup. */
  lemma {:induction false} OthersWait(s: System, e: Event, i: nat)
    requires i < |Apply(s, e).requests| && !Moves(s, e, i)
    ensures if i < |s.requests| then Apply(s, e).requests[i] == s.requests[i]
            else Apply(s, e).requests[i].pc == Lookup
  {
  }

  lemma {:induction false} OldConsumption(s: System, e: Event, r: Request)
    requires Inv(s) && r.now <= s.clock
    requires ConsumedAt(Apply(s, e).log, r.token).Some? && r.now - ConsumedAt(Apply(s, e).log, r.token).value >= 30000
    ensures ConsumedAt(s.log, r.token) == ConsumedAt(Apply(s, e).log, r.token)
  {
    if Wins(s, e) {
      LogAppend(s.log, Rotation(s.requests[e.i].pc.session, s.requests[e.i].token, e.minted, s.clock));
    } else {
      LogStays(s, e);
    }
  }

  lemma {:induction false} WaitingReplay(s: System, e: Event, i: nat)
    requires Inv(s) && Owned(s) && i < |s.requests|
    ensures ReplayOk(Apply(s, e), s.requests[i])
  {
    var t, r := Apply(s, e), s.requests[i];
    assert ReplayOk(s, r) && RequestOk(s, r);
    if ConsumedAt(t.log, r.token).Some? && r.now - ConsumedAt(t.log, r.token).value >= 30000 {
      OldConsumption(s, e, r);
      if r.pc == Done(Invalid) {
        OwnersStay(s, e);
        DoneStays(s, e);
        CaughtStays(s, t, OwnerOf(s, r.token).value);
      }
    }
  }

  /** A step of a replay leads to the history, to revoking, to reuse, or, if its token is in
      no row, to invalid. */
  lemma {:induction false} ReplayMoves(s: System, e: Event, i: nat)
    requires Inv(s) && i < |s.requests| && Moves(s, e, i)
    requires ConsumedAt(s.log, s.requests[i].token).Some?
    requires s.requests[i].now - ConsumedAt(s.log, s.requests[i].token).value >= 30000
    ensures i < |Apply(s, e).requests|
    ensures var r, q := s.requests[i], Apply(s, e).requests[i];
            && q.token == r.token && q.now == r.now
            && (q == r || q.pc == History || q.pc.Revoking? || q.pc == Done(TokenReuse)
                || (q.pc == Done(Invalid) && r.token !in s.used))
  {
    assert RequestOk(s, s.requests[i]);
  }

  lemma {:induction false} MovingReplay(s: System, e: Event, i: nat)
    requires Inv(s) && Owned(s) && i < |s.requests| && Moves(s, e, i)
    ensures i < |Apply(s, e).requests| && ReplayOk(Apply(s, e), Apply(s, e).requests[i])
  {
    var t, r := Apply(s, e), s.requests[i];
    DoneStays(s, e);
    MovesKeepToken(s, e, i);
    assert ReplayOk(s, r) && RequestOk(s, r);
    if ConsumedAt(t.log, r.token).Some? && r.now - ConsumedAt(t.log, r.token).value >= 30000 {
      OldConsumption(s, e, r);
      ReplayMoves(s, e, i);
      OwnersStay(s, e);
      ConsumedHasOwner(s, r.token);
      if Caught(s, OwnerOf(s, r.token).value) {
        CaughtStays(s, t, OwnerOf(s, r.token).value);
      }
    }
  }

  lemma {:induction false} MovesKeepToken(s: System, e: Event, i: nat)
    requires i < |s.requests|
    ensures i < |Apply(s, e).requests|
    ensures Apply(s, e).requests[i].token == s.requests[i].token && Apply(s, e).requests[i].now == s.requests[i].now
  {
  }

  lemma {:induction false} StepKeepsReplays(s: System, e: Event)
    requires Inv(s) && Owned(s)
    ensures ReplaysOk(Apply(s, e))
  {
    var t := Apply(s, e);
    forall i | 0 <= i < |t.requests|
      ensures ReplayOk(t, t.requests[i])
    {
      if Moves(s, e, i) && i < |s.requests| {
        MovingReplay(s, e, i);
      } else {
        OthersWait(s, e, i);
        if i < |s.requests| {
          WaitingReplay(s, e, i);
        }
      }
    }
  }

  lemma {:induction false} StepKeepsOwned(s: System, e: Event)
    requires Inv(s) && Owned(s)
    ensures Owned(Apply(s, e))
  {
    StepKeepsSessionsOwned(s, e);
    StepKeepsHistoryOwned(s, e);
    StepKeepsRevokersOwned(s, e);
    StepKeepsComplete(s, e);
    StepKeepsReplays(s, e);
  }

  lemma {:induction false} RunKeepsOwned(s: System, events: seq<Event>)
    requires Inv(s) && Owned(s)
    ensures Inv(Exec(s, events)) && Owned(Exec(s, events))
    decreases |events|
  {
    if events == [] {
    } else {
      StepKeepsInv(s, events[0]);
      StepKeepsOwned(s, events[0]);
      RunKeepsOwned(Apply(s, events[0]), events[1..]);
    }
  }

  /** In every run the history names the user who logged in the session that consumed the
      token, and every consumed token is in it unless that user's family was caught. */
  lemma {:induction false} HistoryNamesOwners(events: seq<Event>, h: Hash)
    ensures var s := Exec(START, events);
            && (h in s.used ==> OwnerOf(s, h) == Some(s.used[h].user))
            && (ConsumedAt(s.log, h).Some? ==>
                  OwnerOf(s, h).Some? && (h in s.used || Caught(s, OwnerOf(s, h).value)))
  {
    RunKeepsOwned(START, events);
    ConsumedHasOwner(Exec(START, events), h);
  }

  /** A token presented thirty seconds or more after it was rotated away is caught: once the
      request is answered, the answer is reuse, or it is invalid because reuse in the same
      family was answered already. */
  lemma {:induction false} ReplayIsCaught(events: seq<Event>, i: nat)
    ensures var s := Exec(START, events);
            i < |s.requests| && s.requests[i].pc.Done? && ConsumedAt(s.log, s.requests[i].token).Some?
            && s.requests[i].now - ConsumedAt(s.log, s.requests[i].token).value >= 30000 ==>
              || s.requests[i].pc == Done(TokenReuse)
              || (s.requests[i].pc == Done(Invalid) && OwnerOf(s, s.requests[i].token).Some?
                  && Caught(s, OwnerOf(s, s.requests[i].token).value))
  {
    RunKeepsOwned(START, events);
    var s := Exec(START, events);
    if i < |s.requests| {
      assert ReplayOk(s, s.requests[i]);
    }
  }
}
