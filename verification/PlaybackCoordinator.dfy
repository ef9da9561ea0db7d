/** apps/native/shared/coordinator.ts: the owner of both the media grant and the
    decoder session.

    `LivePlaybackCoordinator` is the source's class, one method per stretch of code
    between two awaits. `System` puts any number of its calls in flight together with
    the session's; a list of events is one interleaving of open, invalidate, dispose
    and retryPendingRevokes with the answers of the transport and the adapter. */
module PlaybackCoordinator {
  import opened Common
  import S = PlaybackSession

  type GrantId = nat

  datatype Fields = Fields(seqNo: nat, active: nat, current: Option<GrantId>, pending: set<GrantId>)

  const FRESH_FIELDS := Fields(0, 0, None, {})

  /** The transport's answer to a grant request. */
  datatype Answer = Denied | Granted(id: GrantId, expiresAt: int)

  datatype Result = Superseded | GrantDenied | GrantExpired | NotPublished(why: S.Outcome)
    | Published(id: GrantId, handle: S.Handle)

  // ── The stretches between awaits ──────────────────────────────────────────

  function NewRequest(f: Fields): Fields {
    f.(seqNo := f.seqNo + 1, active := f.seqNo + 1)
  }

  function RevokeSettled(f: Fields, id: GrantId, ok: bool): Fields {
    f.(pending := if ok then f.pending - {id} else f.pending + {id})
  }

  /** A retry leaves a failed revocation where it was. */
  function RetrySettled(f: Fields, id: GrantId, ok: bool): Fields {
    if ok then f.(pending := f.pending - {id}) else f
  }

  /** What an open does with the transport's answer. */
  datatype GrantStep = Finish(result: Result) | GiveUp(id: GrantId, result: Result) | Decode(id: GrantId)

  function OnGrant(f: Fields, rid: nat, answer: Answer, now: int): GrantStep {
    if rid != f.active then
      if answer.Denied? then Finish(Superseded) else GiveUp(answer.id, Superseded)
    else if answer.Denied? then Finish(GrantDenied)
    else if answer.expiresAt <= now then GiveUp(answer.id, GrantExpired)
    else Decode(answer.id)
  }

  /** What an open does when the session's open has returned. */
  function OnSession(f: Fields, rid: nat, id: GrantId, outcome: S.Outcome): GrantStep {
    if rid != f.active then GiveUp(id, Superseded)
    else if !outcome.Published? then GiveUp(id, NotPublished(outcome))
    else Finish(Published(id, outcome.handle))
  }

  class LivePlaybackCoordinator {
    var seqNo: nat
    var active: nat
    var current: Option<GrantId>
    var pending: set<GrantId>
    const session: S.LivePlaybackSession

    function View(): Fields
      reads this
    {
      Fields(seqNo, active, current, pending)
    }

    constructor (session: S.LivePlaybackSession)
      ensures View() == FRESH_FIELDS && this.session == session
    {
      seqNo, active, current, pending := 0, 0, None, {};
      this.session := session;
    }

    /** `open` up to its first await: the previous grant, if any, is to be revoked. */
    method Open() returns (rid: nat, toRevoke: Option<GrantId>)
      modifies this
      ensures rid == active && toRevoke == old(current)
      ensures View() == NewRequest(old(View())).(current := None)
    {
      seqNo := seqNo + 1;
      rid := seqNo;
      active := rid;
      toRevoke := current;
      if current.Some? {
        current := None;
      }
    }

    /** `open` once the transport answered; the decoder is opened only for the active
        request and an unexpired grant. */
    method OnGrantAnswer(rid: nat, answer: Answer, now: int) returns (next: GrantStep, gen: Option<nat>)
      modifies session
      ensures View() == old(View()) && next == OnGrant(View(), rid, answer, now)
      ensures next.Decode? && !old(session.disposed) ==>
                gen == Some(session.generation) && session.View() == S.BeginOpen(old(session.View()))
      ensures !next.Decode? || old(session.disposed) ==> gen == None && session.View() == old(session.View())
    {
      gen := None;
      if rid != active {
        if answer.Granted? {
          return GiveUp(answer.id, Superseded), None;
        }
        return Finish(Superseded), None;
      }
      if answer.Denied? {
        return Finish(GrantDenied), None;
      }
      if answer.expiresAt <= now {
        return GiveUp(answer.id, GrantExpired), None;
      }
      gen := session.Open();
      next := Decode(answer.id);
    }

    /** `open` once the session's open returned. */
    method OnSessionOpened(rid: nat, id: GrantId, outcome: S.Outcome) returns (next: GrantStep)
      modifies this
      ensures next == OnSession(old(View()), rid, id, outcome)
      ensures View() == if next.Finish? then old(View()).(current := Some(id)) else old(View())
    {
      if rid != active {
        return GiveUp(id, Superseded);
      }
      if !outcome.Published? {
        return GiveUp(id, NotPublished(outcome));
      }
      current := Some(id);
      next := Finish(Published(id, outcome.handle));
    }

    /** `invalidate` (or, when final, `dispose`) up to the await of the session. */
    method Close(final: bool) returns (toRelease: Option<S.Handle>)
      modifies this, session
      ensures View() == NewRequest(old(View()))
      ensures toRelease == old(session.handle)
      ensures session.View() == S.CloseNow(old(session.View()), if final then S.Dispose else S.Invalidate)
    {
      seqNo := seqNo + 1;
      active := seqNo;
      toRelease := session.Close(if final then S.Dispose else S.Invalidate);
    }

    /** `invalidate` or `dispose` after the session: `active` is not looked at again. */
    method OnSessionClosed() returns (toRevoke: Option<GrantId>)
      modifies this
      ensures toRevoke == old(current) && View() == old(View()).(current := None)
    {
      toRevoke := current;
      if current.Some? {
        current := None;
      }
    }

    method OnRevoked(id: GrantId, ok: bool)
      modifies this
      ensures View() == RevokeSettled(old(View()), id, ok)
    {
      if ok {
        pending := pending - {id};
      } else {
        pending := pending + {id};
      }
    }

    method OnRetried(id: GrantId, ok: bool)
      modifies this
      ensures View() == RetrySettled(old(View()), id, ok)
    {
      if ok {
        pending := pending - {id};
      }
    }
  }

  // ── Every interleaving of overlapping calls ───────────────────────────────

  /** A call in flight; `op` is its call on the session. Call number `i` has request
      number `i + 1`. */
  datatype Call =
    | RevokingPrevious(id: GrantId)
    | AwaitGrant
    | InSession(id: GrantId, op: nat)
    | RevokingOwn(id: GrantId, result: Result)
    | Done(result: Result)
    | ClosingSession(op: nat)
    | RevokingCurrent(id: GrantId)
    | ClosedDown

  /** Bookkeeping beside the fields: every grant ever issued and every grant whose
      revocation succeeded. A retry is the list of grants it still has to try. */
  datatype System = System(
    f: Fields, calls: seq<Call>, retries: seq<seq<GrantId>>, session: S.System,
    issued: set<GrantId>, revoked: set<GrantId>)

  const START := System(FRESH_FIELDS, [], [], S.START, {}, {})

  datatype Event =
    | CallOpen
    | CallClose(final: bool)
    | CallRetry(todo: seq<GrantId>)
    | RevokeAnswers(call: nat, ok: bool)
    | GrantAnswers(call: nat, answer: Answer, now: int)
    | SessionReturns(call: nat)
    | RetryAnswers(retry: nat, ok: bool)
    | Adapter(e: S.Event)

  function StartOpen(s: System): System {
    var f := NewRequest(s.f);
    if s.f.current.Some? then
      s.(f := f.(current := None), calls := s.calls + [RevokingPrevious(s.f.current.value)])
    else s.(f := f, calls := s.calls + [AwaitGrant])
  }

  function StartClose(s: System, final: bool): System {
    s.(f := NewRequest(s.f),
       calls := s.calls + [ClosingSession(|s.session.ops|)],
       session := S.StartClose(s.session, if final then S.Dispose else S.Invalidate))
  }

  function AfterRevoke(call: Call): Call {
    match call
    case RevokingPrevious(_) => AwaitGrant
    case RevokingOwn(_, result) => Done(result)
    case RevokingCurrent(_) => ClosedDown
    case _ => call
  }

  predicate Revoking(call: Call) {
    call.RevokingPrevious? || call.RevokingOwn? || call.RevokingCurrent?
  }

  function RevokeAnswer(s: System, i: nat, ok: bool): System
    requires i < |s.calls| && Revoking(s.calls[i])
  {
    var id := s.calls[i].id;
    s.(f := RevokeSettled(s.f, id, ok),
       calls := s.calls[i := AfterRevoke(s.calls[i])],
       revoked := if ok then s.revoked + {id} else s.revoked)
  }

  function GrantAnswer(s: System, i: nat, answer: Answer, now: int): System
    requires i < |s.calls|
  {
    var s1 := if answer.Granted? then s.(issued := s.issued + {answer.id}) else s;
    match OnGrant(s.f, i + 1, answer, now)
    case Finish(result) => s1.(calls := s.calls[i := Done(result)])
    case GiveUp(id, result) => s1.(calls := s.calls[i := RevokingOwn(id, result)])
    case Decode(id) =>
      s1.(calls := s.calls[i := InSession(id, |s.session.ops|)], session := S.StartOpen(s.session))
  }

  function OpenReturn(s: System, i: nat, outcome: S.Outcome): System
    requires i < |s.calls| && s.calls[i].InSession?
  {
    match OnSession(s.f, i + 1, s.calls[i].id, outcome)
    case Finish(result) => s.(f := s.f.(current := Some(s.calls[i].id)), calls := s.calls[i := Done(result)])
    case GiveUp(id, result) => s.(calls := s.calls[i := RevokingOwn(id, result)])
    case Decode(_) => s
  }

  function CloseReturn(s: System, i: nat): System
    requires i < |s.calls|
  {
    if s.f.current.Some? then
      s.(f := s.f.(current := None), calls := s.calls[i := RevokingCurrent(s.f.current.value)])
    else s.(calls := s.calls[i := ClosedDown])
  }

  function SessionReturn(s: System, i: nat): System
    requires i < |s.calls|
  {
    match s.calls[i]
    case InSession(_, op) =>
      if op < |s.session.ops| && s.session.ops[op].Opened? then OpenReturn(s, i, s.session.ops[op].outcome) else s
    case ClosingSession(op) =>
      if op < |s.session.ops| && s.session.ops[op].Closed? then CloseReturn(s, i) else s
    case _ => s
  }

  function RetryAnswer(s: System, i: nat, ok: bool): System
    requires i < |s.retries| && s.retries[i] != []
  {
    var id := s.retries[i][0];
    s.(f := RetrySettled(s.f, id, ok),
       retries := s.retries[i := s.retries[i][1..]],
       revoked := if ok then s.revoked + {id} else s.revoked)
  }

  /** One step; an event that cannot happen in `s` changes nothing. Grants are issued
      with new ids, and a retry walks a snapshot of the pending set. */
  function Apply(s: System, e: Event): System {
    match e
    case CallOpen => StartOpen(s)
    case CallClose(final) => StartClose(s, final)
    case CallRetry(todo) =>
      if multiset(todo) == multiset(s.f.pending) then s.(retries := s.retries + [todo]) else s
    case RevokeAnswers(i, ok) =>
      if i < |s.calls| && Revoking(s.calls[i]) then RevokeAnswer(s, i, ok) else s
    case GrantAnswers(i, answer, now) =>
      if i < |s.calls| && s.calls[i].AwaitGrant? && (answer.Granted? ==> answer.id !in s.issued)
      then GrantAnswer(s, i, answer, now) else s
    case SessionReturns(i) => if i < |s.calls| then SessionReturn(s, i) else s
    case RetryAnswers(i, ok) =>
      if i < |s.retries| && s.retries[i] != [] then RetryAnswer(s, i, ok) else s
    case Adapter(e) => if S.AdapterEvent(e) then s.(session := S.Apply(s.session, e)) else s
  }

  function Exec(s: System, events: seq<Event>): System
    decreases |events|
  {
    if events == [] then s else Exec(Apply(s, events[0]), events[1..])
  }

  // ── Grant conservation ────────────────────────────────────────────────────

  function HeldBy(call: Call): multiset<GrantId> {
    if call.InSession? || Revoking(call) then multiset{call.id} else multiset{}
  }

  function Placed(s: System): multiset<GrantId> {
    multiset(s.revoked) + multiset(s.f.pending) + Own(s.f.current)
  }

  /** Every grant ever issued is in exactly one place. */
  ghost predicate GrantsConserved(s: System) {
    multiset(s.issued) == Placed(s) + AllHeld(s.calls, HeldBy)
  }

  /** What a retry still has to try is pending, or was revoked meanwhile. */
  ghost predicate RetriesKnown(s: System) {
    forall i, id :: 0 <= i < |s.retries| && id in s.retries[i] ==> id in s.f.pending || id in s.revoked
  }

  /** Only the current grant changes hands. */
  lemma {:induction false} CurrentMoves(s: System, t: System, before: multiset<GrantId>, after: multiset<GrantId>)
    requires t.revoked == s.revoked && t.f.pending == s.f.pending
    requires Own(t.f.current) + after == Own(s.f.current) + before
    ensures Placed(t) + after == Placed(s) + before
  {
    var kept := multiset(s.revoked) + multiset(s.f.pending);
    assert Placed(t) + after == kept + (Own(t.f.current) + after);
    assert Placed(s) + before == kept + (Own(s.f.current) + before);
  }

  lemma {:induction false} NewCallKeepsGrants(s: System, t: System, call: Call)
    requires GrantsConserved(s) && t.calls == s.calls + [call] && t.issued == s.issued
    requires t.revoked == s.revoked && t.f.pending == s.f.pending
    requires Own(t.f.current) + HeldBy(call) == Own(s.f.current)
    ensures GrantsConserved(t)
  {
    CurrentMoves(s, t, multiset{}, HeldBy(call));
    assert Placed(s) + multiset{} == Placed(s);
    HeldAfterAppend(s.calls, call, HeldBy);
    HandOver(multiset(s.issued), Placed(s), AllHeld(s.calls, HeldBy), Placed(t), HeldBy(call));
  }

  lemma {:induction false} StartOpenKeepsGrants(s: System)
    requires GrantsConserved(s)
    ensures GrantsConserved(StartOpen(s))
  {
    var t := StartOpen(s);
    NewCallKeepsGrants(s, t, t.calls[|s.calls|]);
  }

  lemma {:induction false} StartCloseKeepsGrants(s: System, final: bool)
    requires GrantsConserved(s)
    ensures GrantsConserved(StartClose(s, final))
  {
    var t := StartClose(s, final);
    NewCallKeepsGrants(s, t, t.calls[|s.calls|]);
  }

  /** A call that changes what it holds changes the other places by as much. */
  lemma {:induction false} AnswerKeepsGrants(s: System, t: System, i: nat)
    requires GrantsConserved(s) && i < |s.calls| == |t.calls| && t.calls == s.calls[i := t.calls[i]]
    requires multiset(t.issued) + Placed(s) + HeldBy(s.calls[i])
          == multiset(s.issued) + Placed(t) + HeldBy(t.calls[i])
    ensures GrantsConserved(t)
  {
    HeldAfterUpdate(s.calls, i, t.calls[i], HeldBy);
    Rebalance(multiset(s.issued), Placed(s), AllHeld(s.calls, HeldBy), HeldBy(s.calls[i]),
              multiset(t.issued), Placed(t), AllHeld(t.calls, HeldBy), HeldBy(t.calls[i]));
  }

  /** A grant in the hands of a call is nowhere else. */
  lemma {:induction false} HeldIsNotPlaced(s: System, i: nat)
    requires GrantsConserved(s) && i < |s.calls| && (s.calls[i].InSession? || Revoking(s.calls[i]))
    ensures s.calls[i].id !in s.revoked && s.calls[i].id !in s.f.pending
  {
    var id := s.calls[i].id;
    HeldAfterUpdate(s.calls, i, s.calls[i], HeldBy);
    assert multiset(s.issued)[id] == Placed(s)[id] + AllHeld(s.calls, HeldBy)[id];
  }

  lemma {:induction false} PlacedAfterRevoke(s: System, t: System, id: GrantId, ok: bool)
    requires id !in s.revoked && id !in s.f.pending
    requires t.f.current == s.f.current
    requires t.f.pending == if ok then s.f.pending - {id} else s.f.pending + {id}
    requires t.revoked == if ok then s.revoked + {id} else s.revoked
    ensures Placed(t) == Placed(s) + multiset{id}
  {
    if ok {
      AddedOnce(s.revoked, id);
      assert s.f.pending - {id} == s.f.pending;
    } else {
      AddedOnce(s.f.pending, id);
    }
  }

  lemma {:induction false} RevokedIsHandedOn(call: Call)
    requires Revoking(call)
    ensures HeldBy(call) == multiset{call.id} && HeldBy(AfterRevoke(call)) == multiset{}
  {
  }

  /** A grant whose revocation was answered is revoked or pending. */
  lemma {:induction false} RevokeMoves(s: System, i: nat, ok: bool)
    requires GrantsConserved(s) && i < |s.calls| && Revoking(s.calls[i])
    ensures var t := RevokeAnswer(s, i, ok);
            Placed(s) + HeldBy(s.calls[i]) == Placed(t) + HeldBy(t.calls[i])
  {
    var t, id := RevokeAnswer(s, i, ok), s.calls[i].id;
    HeldIsNotPlaced(s, i);
    assert Placed(t) == Placed(s) + multiset{id} by {
      PlacedAfterRevoke(s, t, id, ok);
    }
    RevokedIsHandedOn(s.calls[i]);
  }

  lemma {:induction false} RevokeKeepsGrants(s: System, i: nat, ok: bool)
    requires GrantsConserved(s) && i < |s.calls| && Revoking(s.calls[i])
    ensures GrantsConserved(RevokeAnswer(s, i, ok))
  {
    var t := RevokeAnswer(s, i, ok);
    RevokeMoves(s, i, ok);
    BalancedMove(multiset(s.issued), Placed(s), HeldBy(s.calls[i]), Placed(t), HeldBy(t.calls[i]));
    AnswerKeepsGrants(s, t, i);
  }

  lemma {:induction false} GrantAnswerEffect(s: System, i: nat, answer: Answer, now: int)
    requires i < |s.calls| && s.calls[i].AwaitGrant?
    ensures var t := GrantAnswer(s, i, answer, now);
            && |t.calls| == |s.calls| && t.calls == s.calls[i := t.calls[i]]
            && t.f == s.f && t.revoked == s.revoked && t.retries == s.retries
            && t.issued == (if answer.Granted? then s.issued + {answer.id} else s.issued)
            && HeldBy(t.calls[i]) == (if answer.Granted? then multiset{answer.id} else multiset{})
  {
  }

  lemma {:induction false} GrantKeepsGrants(s: System, i: nat, answer: Answer, now: int)
    requires GrantsConserved(s) && i < |s.calls| && s.calls[i].AwaitGrant?
    requires answer.Granted? ==> answer.id !in s.issued
    ensures GrantsConserved(GrantAnswer(s, i, answer, now))
  {
    var t := GrantAnswer(s, i, answer, now);
    GrantAnswerEffect(s, i, answer, now);
    if answer.Granted? {
      AddedOnce(s.issued, answer.id);
    }
    assert Placed(t) == Placed(s);
    AnswerKeepsGrants(s, t, i);
  }

  /** An open assigns the current grant only where there is none. */
  lemma {:induction false} PublishFindsNoGrant(s: System, i: nat)
    requires Ordered(s) && i < |s.calls| && s.calls[i].InSession? && i + 1 == s.f.active
    ensures s.f.current.None?
  {
  }

  ghost predicate OnlyCurrentMoved(s: System, t: System, i: nat)
    requires i < |s.calls|
  {
    && |t.calls| == |s.calls| && t.calls == s.calls[i := t.calls[i]]
    && t.issued == s.issued && t.revoked == s.revoked && t.f.pending == s.f.pending
    && Own(t.f.current) + HeldBy(t.calls[i]) == Own(s.f.current) + HeldBy(s.calls[i])
  }

  lemma {:induction false} OpenReturnEffect(s: System, i: nat, outcome: S.Outcome)
    requires Ordered(s) && i < |s.calls| && s.calls[i].InSession?
    ensures OnlyCurrentMoved(s, OpenReturn(s, i, outcome), i)
  {
    if i + 1 == s.f.active {
      PublishFindsNoGrant(s, i);
    }
  }

  lemma {:induction false} CloseReturnEffect(s: System, i: nat)
    requires i < |s.calls| && s.calls[i].ClosingSession?
    ensures OnlyCurrentMoved(s, CloseReturn(s, i), i)
  {
  }

  lemma {:induction false} NothingMoves(s: System, i: nat)
    requires i < |s.calls|
    ensures OnlyCurrentMoved(s, s, i)
  {
  }

  lemma {:induction false} InSessionEffect(s: System, i: nat)
    requires Ordered(s) && i < |s.calls| && s.calls[i].InSession?
    ensures OnlyCurrentMoved(s, SessionReturn(s, i), i)
  {
    var op := s.calls[i].op;
    if op < |s.session.ops| && s.session.ops[op].Opened? {
      OpenReturnEffect(s, i, s.session.ops[op].outcome);
    } else {
      NothingMoves(s, i);
    }
  }

  lemma {:induction false} ClosingEffect(s: System, i: nat)
    requires i < |s.calls| && s.calls[i].ClosingSession?
    ensures OnlyCurrentMoved(s, SessionReturn(s, i), i)
  {
    var op := s.calls[i].op;
    if op < |s.session.ops| && s.session.ops[op].Closed? {
      CloseReturnEffect(s, i);
    } else {
      NothingMoves(s, i);
    }
  }

  lemma {:induction false} SessionReturnEffect(s: System, i: nat)
    requires Ordered(s) && i < |s.calls|
    ensures OnlyCurrentMoved(s, SessionReturn(s, i), i)
  {
    if s.calls[i].InSession? {
      InSessionEffect(s, i);
    } else if s.calls[i].ClosingSession? {
      ClosingEffect(s, i);
    } else {
      NothingMoves(s, i);
    }
  }

  lemma {:induction false} SessionReturnKeepsGrants(s: System, i: nat)
    requires GrantsConserved(s) && Ordered(s) && i < |s.calls|
    ensures GrantsConserved(SessionReturn(s, i))
  {
    var t := SessionReturn(s, i);
    SessionReturnEffect(s, i);
    CurrentMoves(s, t, HeldBy(s.calls[i]), HeldBy(t.calls[i]));
    BalancedMove(multiset(s.issued), Placed(s), HeldBy(s.calls[i]), Placed(t), HeldBy(t.calls[i]));
    AnswerKeepsGrants(s, t, i);
  }

  /** A retry moves a grant from pending to revoked, if another retry has not already. */
  lemma {:induction false} RetryKeepsGrants(s: System, i: nat, ok: bool)
    requires GrantsConserved(s) && RetriesKnown(s) && i < |s.retries| && s.retries[i] != []
    ensures GrantsConserved(RetryAnswer(s, i, ok))
  {
    var id := s.retries[i][0];
    var t := RetryAnswer(s, i, ok);
    assert id in s.retries[i];
    assert multiset(s.issued)[id] == Placed(s)[id] + AllHeld(s.calls, HeldBy)[id];
    if ok && id in s.f.pending {
      AddedOnce(s.revoked, id);
      AddedOnce(s.f.pending - {id}, id);
      assert s.f.pending - {id} + {id} == s.f.pending;
      assert Placed(t) == Placed(s);
    } else if ok {
      assert s.revoked + {id} == s.revoked && s.f.pending - {id} == s.f.pending;
    }
  }

  lemma {:induction false} StepKeepsRetries(s: System, e: Event)
    requires RetriesKnown(s)
    ensures RetriesKnown(Apply(s, e))
  {
    var t := Apply(s, e);
    forall j, x | 0 <= j < |t.retries| && x in t.retries[j]
      ensures x in t.f.pending || x in t.revoked
    {
      if j < |s.retries| {
        assert x in s.retries[j];
      } else {
        assert x in multiset(s.f.pending);
      }
    }
  }

  // ── The last call decides ─────────────────────────────────────────────────

  /** The losses the latest request can suffer: the transport's or the adapter's, never
      another request's. */
  predicate OwnFailure(s: System, r: Result) {
    match r
    case GrantDenied => true
    case GrantExpired => true
    case NotPublished(why) => why == S.WasRejected || (why == S.WasDisposed && s.session.f.disposed)
    case _ => false
  }

  ghost predicate LastCallKnown(s: System)
    requires s.calls != []
  {
    match s.calls[|s.calls| - 1]
    case RevokingPrevious(_) => s.f.current.None?
    case AwaitGrant => s.f.current.None?
    case InSession(_, op) => s.f.current.None? && S.NotOvertaken(s.session, op)
    case RevokingOwn(_, r) => s.f.current.None? && OwnFailure(s, r)
    case Done(Published(id, h)) => s.f.current in {None, Some(id)} && S.Settled(s.session, Some(h))
    case Done(r) => s.f.current.None? && OwnFailure(s, r)
    case ClosingSession(_) => S.Settled(s.session, None)
    case _ => s.f.current.None? && S.Settled(s.session, None)
  }

  predicate Closing(call: Call) {
    call.ClosingSession?
  }

  /** An invalidate or dispose that has not come back from the session yet. */
  ghost predicate CloseInFlight(s: System) {
    exists i :: 0 <= i < |s.calls| && Closing(s.calls[i])
  }

  ghost predicate Ordered(s: System) {
    && s.f.seqNo == s.f.active == |s.calls|
    && S.LatestWins(s.session)
    && (s.calls == [] ==> s.f.current.None? && s.session == S.START)
    && (s.calls != [] ==> LastCallKnown(s))
    && (s.session.f.disposed ==> s.f.current.None? || CloseInFlight(s))
  }

  lemma {:induction false} StartOpenKeepsOrder(s: System)
    requires Ordered(s)
    ensures Ordered(StartOpen(s))
  {
  }

  lemma {:induction false} StartCloseKeepsOrder(s: System, final: bool)
    requires Ordered(s)
    ensures Ordered(StartClose(s, final))
  {
    var kind := if final then S.Dispose else S.Invalidate;
    S.NewCallKeepsOrder(s.session, S.CallClose(kind));
    S.CloseSettles(s.session, kind);
    assert Closing(StartClose(s, final).calls[|s.calls|]);
  }

  /** The in-flight closes are those of `s`, minus the one that just came back. */
  lemma {:induction false} StillInFlight(s: System, t: System, i: nat)
    requires i < |s.calls| == |t.calls| && t.calls == s.calls[i := t.calls[i]]
    requires CloseInFlight(s) && !Closing(s.calls[i])
    ensures CloseInFlight(t)
  {
    var j :| 0 <= j < |s.calls| && Closing(s.calls[j]);
    assert Closing(t.calls[j]);
  }

  lemma {:induction false} RevokeKeepsOrder(s: System, i: nat, ok: bool)
    requires Ordered(s) && i < |s.calls| && Revoking(s.calls[i])
    ensures Ordered(RevokeAnswer(s, i, ok))
  {
    if CloseInFlight(s) {
      StillInFlight(s, RevokeAnswer(s, i, ok), i);
    }
  }

  lemma {:induction false} GrantKeepsOrder(s: System, i: nat, answer: Answer, now: int)
    requires Ordered(s) && i < |s.calls| && s.calls[i].AwaitGrant?
    ensures Ordered(GrantAnswer(s, i, answer, now))
  {
    if CloseInFlight(s) {
      StillInFlight(s, GrantAnswer(s, i, answer, now), i);
    }
    S.NewCallKeepsOrder(s.session, S.CallOpen);
    S.OpenIsNotOvertaken(s.session);
  }

  lemma {:induction false} SessionReturnKeepsOrder(s: System, i: nat)
    requires Ordered(s) && i < |s.calls|
    ensures Ordered(SessionReturn(s, i))
  {
    var t := SessionReturn(s, i);
    if CloseInFlight(s) && !Closing(s.calls[i]) {
      StillInFlight(s, t, i);
    }
  }

  lemma {:induction false} AdapterKeepsLastCall(s: System, e: S.Event)
    requires s.calls != [] && LastCallKnown(s) && S.LatestWins(s.session) && S.AdapterEvent(e)
    ensures LastCallKnown(Apply(s, Adapter(e)))
  {
    assert S.Apply(s.session, e).f.disposed == s.session.f.disposed;
    match s.calls[|s.calls| - 1]
    case InSession(_, op) => S.NotOvertakenStays(s.session, e, op);
    case ClosingSession(_) => S.SettledStays(s.session, e, None);
    case RevokingCurrent(_) => S.SettledStays(s.session, e, None);
    case ClosedDown => S.SettledStays(s.session, e, None);
    case Done(Published(_, h)) => S.SettledStays(s.session, e, Some(h));
    case _ =>
  }

  lemma {:induction false} AdapterKeepsOrder(s: System, e: S.Event)
    requires Ordered(s) && S.AdapterEvent(e)
    ensures Ordered(Apply(s, Adapter(e)))
  {
    var t := Apply(s, Adapter(e));
    S.AnswerKeepsOrder(s.session, e);
    if s.calls != [] {
      AdapterKeepsLastCall(s, e);
    }
    assert t.session.f.disposed == s.session.f.disposed;
    assert CloseInFlight(s) ==> CloseInFlight(t);
  }
}
