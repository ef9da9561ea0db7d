/** What holds in every run of the playback coordinator: conservation of grants and
    handles, the latest request wins, teardown absorbs. */
module PlaybackRuns {
  import opened Common
  import S = PlaybackSession
  import opened PlaybackCoordinator

  // ── Every run ─────────────────────────────────────────────────────────────

  ghost predicate Inv(s: System) {
    GrantsConserved(s) && RetriesKnown(s) && Ordered(s) && S.HandlesConserved(s.session)
  }

  lemma {:induction false} SameBooks(s: System, t: System)
    requires GrantsConserved(s) && t.f == s.f && t.calls == s.calls && t.issued == s.issued && t.revoked == s.revoked
    ensures GrantsConserved(t)
  {
  }

  lemma {:induction false} RevokeStepKeepsGrants(s: System, e: Event)
    requires Inv(s) && e.RevokeAnswers?
    ensures GrantsConserved(Apply(s, e))
  {
    if e.call < |s.calls| && Revoking(s.calls[e.call]) {
      RevokeKeepsGrants(s, e.call, e.ok);
    }
  }

  lemma {:induction false} GrantStepKeepsGrants(s: System, e: Event)
    requires Inv(s) && e.GrantAnswers?
    ensures GrantsConserved(Apply(s, e))
  {
    if e.call < |s.calls| && s.calls[e.call].AwaitGrant? && (e.answer.Granted? ==> e.answer.id !in s.issued) {
      GrantKeepsGrants(s, e.call, e.answer, e.now);
    }
  }

  lemma {:induction false} RetryStepKeepsGrants(s: System, e: Event)
    requires Inv(s) && e.RetryAnswers?
    ensures GrantsConserved(Apply(s, e))
  {
    if e.retry < |s.retries| && s.retries[e.retry] != [] {
      RetryKeepsGrants(s, e.retry, e.ok);
    }
  }

  lemma {:induction false} StepKeepsGrants(s: System, e: Event)
    requires Inv(s)
    ensures GrantsConserved(Apply(s, e))
  {
    match e
    case CallOpen => StartOpenKeepsGrants(s);
    case CallClose(final) => StartCloseKeepsGrants(s, final);
    case RevokeAnswers(_, _) => RevokeStepKeepsGrants(s, e);
    case GrantAnswers(_, _, _) => GrantStepKeepsGrants(s, e);
    case SessionReturns(i) =>
      if i < |s.calls| {
        SessionReturnKeepsGrants(s, i);
      }
    case RetryAnswers(_, _) => RetryStepKeepsGrants(s, e);
    case CallRetry(_) => SameBooks(s, Apply(s, e));
    case Adapter(_) => SameBooks(s, Apply(s, e));
  }

  lemma {:induction false} StepKeepsOrder(s: System, e: Event)
    requires Ordered(s)
    ensures Ordered(Apply(s, e))
  {
    match e
    case CallOpen => StartOpenKeepsOrder(s);
    case CallClose(final) => StartCloseKeepsOrder(s, final);
    case RevokeAnswers(i, ok) =>
      if i < |s.calls| && Revoking(s.calls[i]) {
        RevokeKeepsOrder(s, i, ok);
      }
    case GrantAnswers(i, answer, now) =>
      if i < |s.calls| && s.calls[i].AwaitGrant? {
        GrantKeepsOrder(s, i, answer, now);
      }
    case SessionReturns(i) =>
      if i < |s.calls| {
        SessionReturnKeepsOrder(s, i);
      }
    case Adapter(e) =>
      if S.AdapterEvent(e) {
        AdapterKeepsOrder(s, e);
      }
    case _ =>
      assert CloseInFlight(s) ==> CloseInFlight(Apply(s, e));
  }

  /** Whatever happens to the coordinator, the session takes one of its own steps or
      none. */
  function SessionStep(s: System, e: Event): Option<S.Event> {
    match e
    case CallClose(final) => Some(S.CallClose(if final then S.Dispose else S.Invalidate))
    case GrantAnswers(i, answer, now) =>
      if i < |s.calls| && s.calls[i].AwaitGrant? && (answer.Granted? ==> answer.id !in s.issued)
         && OnGrant(s.f, i + 1, answer, now).Decode?
      then Some(S.CallOpen) else None
    case Adapter(e) => if S.AdapterEvent(e) then Some(e) else None
    case _ => None
  }

  lemma {:induction false} SessionTakesOneStep(s: System, e: Event)
    ensures Apply(s, e).session == match SessionStep(s, e) {
              case Some(step) => S.Apply(s.session, step)
              case None => s.session
            }
  {
  }

  lemma {:induction false} StepKeepsInv(s: System, e: Event)
    requires Inv(s)
    ensures Inv(Apply(s, e))
  {
    StepKeepsGrants(s, e);
    StepKeepsRetries(s, e);
    StepKeepsOrder(s, e);
    SessionTakesOneStep(s, e);
    if SessionStep(s, e).Some? {
      S.StepKeepsInv(s.session, SessionStep(s, e).value);
    }
  }

  lemma {:induction false} RunKeepsInv(s: System, events: seq<Event>)
    requires Inv(s)
    ensures Inv(Exec(s, events))
    decreases |events|
  {
    if events == [] {
    } else {
      StepKeepsInv(s, events[0]);
      RunKeepsInv(Apply(s, events[0]), events[1..]);
    }
  }

  lemma {:induction false} RunKeepsOrder(s: System, events: seq<Event>)
    requires Ordered(s)
    ensures Ordered(Exec(s, events))
    decreases |events|
  {
    if events == [] {
    } else {
      StepKeepsOrder(s, events[0]);
      RunKeepsOrder(Apply(s, events[0]), events[1..]);
    }
  }

  /** No call is in flight and nothing is left for a retry to try. */
  ghost predicate Quiescent(s: System) {
    && (forall i :: 0 <= i < |s.calls| ==> s.calls[i].Done? || s.calls[i].ClosedDown?)
    && (forall i :: 0 <= i < |s.retries| ==> s.retries[i] == [])
    && S.Quiescent(s.session)
  }

  /** Every grant but the current one is revoked or waits for a retry, and every handle
      but the session's was handed back exactly once. */
  ghost predicate AllElseGivenUp(s: System) {
    && (forall id :: id in s.issued && s.f.current != Some(id) ==> (id in s.revoked) != (id in s.f.pending))
    && (forall h :: h in s.session.received && s.session.f.handle != Some(h) ==> s.session.released[h] == 1)
  }

  lemma {:induction false} QuietMeansGivenUp(s: System)
    requires Inv(s) && Quiescent(s)
    ensures AllElseGivenUp(s)
  {
    NothingHeld(s.calls, HeldBy);
    S.QuiescentHoldsNothing(s.session);
    forall id | id in s.issued && s.f.current != Some(id)
      ensures (id in s.revoked) != (id in s.f.pending)
    {
      assert multiset(s.issued)[id] == Placed(s)[id];
    }
    forall h | h in s.session.received && s.session.f.handle != Some(h)
      ensures s.session.released[h] == 1
    {
      assert multiset(s.session.received)[h] == S.Placed(s.session)[h];
    }
  }

  function Times(b: bool): nat {
    if b then 1 else 0
  }

  /** Grant conservation: in every interleaving each issued grant is revoked, pending,
      current or held by one call in flight, exactly one of these. */
  lemma {:induction false} GrantConservation(events: seq<Event>, id: GrantId)
    ensures var s := Exec(START, events);
            Times(id in s.issued) == Times(id in s.revoked) + Times(id in s.f.pending)
              + Times(s.f.current == Some(id)) + AllHeld(s.calls, HeldBy)[id]
  {
    RunKeepsInv(START, events);
    var s := Exec(START, events);
    assert multiset(s.issued)[id] == Placed(s)[id] + AllHeld(s.calls, HeldBy)[id];
  }

  /** Once no call is in flight nothing is forgotten: only the current grant and the
      published handle have not been given up. */
  lemma {:induction false} NothingForgotten(events: seq<Event>)
    ensures var s := Exec(START, events);
            Quiescent(s) ==> AllElseGivenUp(s)
  {
    RunKeepsInv(START, events);
    var s := Exec(START, events);
    if Quiescent(s) {
      QuietMeansGivenUp(s);
    }
  }

  /** Handle conservation, for every run of the coordinator: each handle the adapter
      returned was released, is published, or is in the hands of one open in flight. */
  lemma {:induction false} HandleConservation(events: seq<Event>, h: S.Handle)
    ensures var s := Exec(START, events).session;
            Times(h in s.received) == s.released[h] + Times(s.f.handle == Some(h)) + AllHeld(s.ops, S.HeldBy)[h]
  {
    RunKeepsInv(START, events);
    var s := Exec(START, events).session;
    assert multiset(s.received)[h] == S.Placed(s)[h] + AllHeld(s.ops, S.HeldBy)[h];
  }

  /** The current grant is always null where an open assigns it. */
  lemma {:induction false} NoGrantOverwritten(events: seq<Event>, i: nat)
    ensures var s := Exec(START, events);
            var t := Apply(s, SessionReturns(i));
            t.f.current.Some? ==> s.f.current == t.f.current || s.f.current.None?
  {
    RunKeepsOrder(START, events);
  }

  // ── Latest request wins ───────────────────────────────────────────────────

  predicate NoClose(events: seq<Event>) {
    forall i :: 0 <= i < |events| ==> !events[i].CallClose?
  }

  predicate OpenCall(call: Call) {
    !call.ClosingSession? && !call.RevokingCurrent? && !call.ClosedDown?
  }

  ghost predicate AllOpenCalls(s: System) {
    forall i :: 0 <= i < |s.calls| ==> OpenCall(s.calls[i])
  }

  ghost predicate LastIsCurrent(s: System) {
    forall id: GrantId, h: S.Handle :: s.calls != [] && s.calls[|s.calls| - 1] == Done(Published(id, h)) ==>
                                         s.f.current == Some(id)
  }

  ghost predicate OnlyOpens(s: System) {
    AllOpenCalls(s) && !s.session.f.disposed && LastIsCurrent(s)
  }

  lemma {:induction false} CallsStayOpens(s: System, e: Event)
    requires AllOpenCalls(s) && !e.CallClose?
    ensures AllOpenCalls(Apply(s, e))
  {
  }

  lemma {:induction false} LastStaysCurrent(s: System, e: Event)
    requires Ordered(s) && AllOpenCalls(s) && LastIsCurrent(s) && !e.CallClose?
    ensures LastIsCurrent(Apply(s, e))
  {
  }

  lemma {:induction false} OnlyOpensStep(s: System, e: Event)
    requires Ordered(s) && OnlyOpens(s) && !e.CallClose?
    ensures OnlyOpens(Apply(s, e))
  {
    CallsStayOpens(s, e);
    LastStaysCurrent(s, e);
    SessionTakesOneStep(s, e);
  }

  lemma {:induction false} OnlyOpensRun(s: System, events: seq<Event>)
    requires Ordered(s) && OnlyOpens(s) && NoClose(events)
    ensures Ordered(Exec(s, events)) && OnlyOpens(Exec(s, events))
    decreases |events|
  {
    if events == [] {
    } else {
      StepKeepsOrder(s, events[0]);
      OnlyOpensStep(s, events[0]);
      OnlyOpensRun(Apply(s, events[0]), events[1..]);
    }
  }

  /** Latest request wins, for overlapping opens: when all is quiet the last open was
      published and its grant and handle are the current ones, unless the transport
      denied it, its grant had expired or the adapter refused it; it never loses to
      another open. Every other grant and handle is given up, by the two conservation
      lemmas. */
  lemma {:induction false} LatestOpenWins(events: seq<Event>)
    requires NoClose(events)
    ensures var s := Exec(START, events);
            Quiescent(s) && s.calls != [] ==>
              && s.calls[|s.calls| - 1].Done?
              && match s.calls[|s.calls| - 1].result {
                   case Published(id, h) => s.f.current == Some(id) && s.session.f.handle == Some(h)
                   case GrantDenied => s.f.current.None?
                   case GrantExpired => s.f.current.None?
                   case NotPublished(why) => s.f.current.None? && why == S.WasRejected
                   case Superseded => false
                 }
  {
    OnlyOpensRun(START, events);
    var s := Exec(START, events);
    if Quiescent(s) && s.calls != [] {
      assert OpenCall(s.calls[|s.calls| - 1]);
    }
  }

  /** If an invalidate or dispose is the last operation invoked, quiescence has neither
      grant nor handle. */
  lemma {:induction false} LastCloseClears(events: seq<Event>)
    ensures var s := Exec(START, events);
            Quiescent(s) && s.calls != [] && s.calls[|s.calls| - 1].ClosedDown? ==>
              s.f.current.None? && s.session.f.handle.None?
  {
    RunKeepsOrder(START, events);
  }

  predicate NewRequestEvent(e: Event) {
    e.CallOpen? || e.CallClose?
  }

  predicate NoNewRequest(events: seq<Event>) {
    forall i :: 0 <= i < |events| ==> !NewRequestEvent(events[i])
  }

  /** `s` has just published the last open; `kept` says whether its grant survives. */
  ghost predicate AfterPublish(s: System, id: GrantId, h: S.Handle, kept: bool) {
    && s.calls != [] && s.calls[|s.calls| - 1] == Done(Published(id, h))
    && (kept ==> s.f.current == Some(id) && !CloseInFlight(s))
    && (!kept ==> s.f.current.None? || CloseInFlight(s))
  }

  lemma {:induction false} AfterPublishStep(s: System, e: Event, id: GrantId, h: S.Handle, kept: bool)
    requires Ordered(s) && AfterPublish(s, id, h, kept) && !NewRequestEvent(e)
    ensures AfterPublish(Apply(s, e), id, h, kept)
  {
    var t := Apply(s, e);
    assert |t.calls| == |s.calls|;
    if kept {
      forall i | 0 <= i < |t.calls|
        ensures !Closing(t.calls[i])
      {
        assert !Closing(s.calls[i]);
      }
    } else if CloseInFlight(s) && t.f.current.Some? {
      var j :| 0 <= j < |s.calls| && Closing(s.calls[j]);
      assert Closing(t.calls[j]);
    }
  }

  lemma {:induction false} AfterPublishRun(s: System, events: seq<Event>, id: GrantId, h: S.Handle, kept: bool)
    requires Ordered(s) && AfterPublish(s, id, h, kept) && NoNewRequest(events)
    ensures Ordered(Exec(s, events)) && AfterPublish(Exec(s, events), id, h, kept)
    decreases |events|
  {
    if events == [] {
    } else {
      StepKeepsOrder(s, events[0]);
      AfterPublishStep(s, events[0], id, h, kept);
      AfterPublishRun(Apply(s, events[0]), events[1..], id, h, kept);
    }
  }

  /** With invalidates in the run the last open keeps its decoder, and keeps its grant
      exactly when no invalidate was still waiting for the session at the moment the
      open was published: `invalidate` does not look at `active` again after its await
      and takes whatever grant it finds. */
  lemma {:induction false} LatestOpenKeepsGrantIff(before: seq<Event>, after: seq<Event>, id: GrantId, h: S.Handle)
    requires NoNewRequest(after)
    ensures var s := Exec(START, before);
            var t := Exec(s, after);
            s.calls != [] && s.calls[|s.calls| - 1] == Done(Published(id, h)) && s.f.current == Some(id)
            && Quiescent(t) ==>
              && t.session.f.handle == Some(h)
              && (t.f.current == Some(id) <==> !CloseInFlight(s))
  {
    RunKeepsOrder(START, before);
    var s := Exec(START, before);
    var t := Exec(s, after);
    if s.calls != [] && s.calls[|s.calls| - 1] == Done(Published(id, h)) && s.f.current == Some(id) && Quiescent(t) {
      AfterPublishRun(s, after, id, h, !CloseInFlight(s));
    }
  }

  // ── Teardown ──────────────────────────────────────────────────────────────

  ghost predicate TornDown(s: System, last: Option<GrantId>) {
    Ordered(s) && s.session.f.disposed && s.f.current in {None, last}
  }

  lemma {:induction false} TornDownStep(s: System, e: Event, last: Option<GrantId>)
    requires TornDown(s, last)
    ensures TornDown(Apply(s, e), last)
  {
    StepKeepsOrder(s, e);
    SessionTakesOneStep(s, e);
  }

  lemma {:induction false} TornDownRun(s: System, events: seq<Event>, last: Option<GrantId>)
    requires TornDown(s, last)
    ensures TornDown(Exec(s, events), last)
    decreases |events|
  {
    if events == [] {
    } else {
      TornDownStep(s, events[0], last);
      TornDownRun(Apply(s, events[0]), events[1..], last);
    }
  }

  /** Teardown absorbs: after dispose has been called, whatever is called later, no
      handle is published, no other grant becomes current and a grant once cleared stays
      cleared; once quiet there is no grant at all. */
  lemma {:induction false} TeardownAbsorbs(before: seq<Event>, after: seq<Event>, later: seq<Event>)
    ensures var s := Apply(Exec(START, before), CallClose(true));
            var t := Exec(s, after);
            && t.session.f.handle.None?
            && t.f.current in {None, s.f.current}
            && (t.f.current.None? ==> Exec(t, later).f.current.None?)
            && (Quiescent(t) ==> t.f.current.None?)
  {
    RunKeepsOrder(START, before);
    var s := Apply(Exec(START, before), CallClose(true));
    StepKeepsOrder(Exec(START, before), CallClose(true));
    TornDownRun(s, after, s.f.current);
    if Exec(s, after).f.current.None? {
      TornDownRun(Exec(s, after), later, None);
    }
    assert Quiescent(Exec(s, after)) ==> !CloseInFlight(Exec(s, after));
  }

  /** Once a torn down coordinator is quiet, every grant ever issued is revoked or waits
      for a retry and every handle was handed back exactly once. */
  lemma {:induction false} TeardownGivesEverythingUp(events: seq<Event>)
    ensures var s := Exec(START, events);
            s.session.f.disposed && Quiescent(s) ==>
              && (forall id :: id in s.issued ==> (id in s.revoked) != (id in s.f.pending))
              && (forall h :: h in s.session.received ==> s.session.released[h] == 1)
  {
    RunKeepsOrder(START, events);
    NothingForgotten(events);
    var s := Exec(START, events);
    assert s.session.f.disposed && Quiescent(s) ==> s.f.current.None? && !CloseInFlight(s);
  }
}
