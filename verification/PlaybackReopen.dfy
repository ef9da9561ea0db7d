/** One more open on a coordinator whose decoder is playing: exactly when the decoder is
    left without a grant. */
module PlaybackReopen {
  import opened Common
  import S = PlaybackSession
  import opened PlaybackCoordinator
  import opened PlaybackRuns

  // ── The session while one open is on its way ──────────────────────────────

  /** Only `op` may still be opening. */
  ghost predicate OthersDone(s: S.System, op: int) {
    forall i :: 0 <= i < |s.ops| && i != op ==> !S.Live(s.ops[i])
  }

  /** The decoder `h` plays until `op` is published in its place. */
  ghost predicate Replacing(s: S.System, op: nat, h: S.Handle) {
    && op < |s.ops| && OthersDone(s, op)
    && match s.ops[op] {
         case AwaitAdapter(_) => s.f.handle == Some(h)
         case AwaitPrevious(_, _) => true
         case Opened(Published(g)) => s.f.handle == Some(g)
         case Opened(WasRejected) => s.f.handle == Some(h)
         case _ => false
       }
  }

  ghost predicate Playing(s: S.System, h: S.Handle) {
    s.f.handle == Some(h) && OthersDone(s, -1)
  }

  lemma {:induction false} PlayingStays(s: S.System, e: S.Event, h: S.Handle)
    requires Playing(s, h) && S.AdapterEvent(e)
    ensures Playing(S.Apply(s, e), h)
  {
  }

  lemma {:induction false} OpenReplaces(s: S.System, h: S.Handle)
    requires Playing(s, h) && !s.f.disposed
    ensures Replacing(S.StartOpen(s), |s.ops|, h)
  {
  }

  lemma {:induction false} OwnAnswer(s: S.System, e: S.Event, op: nat, h: S.Handle)
    requires S.LatestWins(s) && S.NotOvertaken(s, op) && !s.f.disposed
    requires Replacing(s, op, h) && S.AdapterEvent(e) && S.Answered(e) == op
    ensures Replacing(S.Apply(s, e), op, h)
  {
  }

  lemma {:induction false} OtherAnswer(s: S.System, e: S.Event, op: nat, h: S.Handle)
    requires Replacing(s, op, h) && S.AdapterEvent(e) && S.Answered(e) != op
    ensures Replacing(S.Apply(s, e), op, h)
  {
  }

  // ── The coordinator until that open is done ───────────────────────────────

  /** Since the last open was called nothing else has touched the decoder `h`. */
  ghost predicate Reopening(s: System, h: S.Handle) {
    && Ordered(s) && s.calls != [] && !CloseInFlight(s) && !s.session.f.disposed
    && match s.calls[|s.calls| - 1] {
         case RevokingPrevious(_) => s.f.current.None? && Playing(s.session, h)
         case AwaitGrant => s.f.current.None? && Playing(s.session, h)
         case InSession(_, op) => s.f.current.None? && Replacing(s.session, op, h)
         case RevokingOwn(_, r) => s.f.current.None? && Playing(s.session, h) && !r.Published?
         case Done(Published(id, g)) => s.f.current == Some(id) && Playing(s.session, g)
         case Done(_) => s.f.current.None? && Playing(s.session, h)
         case _ => false
       }
  }

  lemma {:induction false} AdapterKeepsReopening(s: System, e: S.Event, h: S.Handle)
    requires Reopening(s, h) && S.AdapterEvent(e)
    ensures Reopening(Apply(s, Adapter(e)), h)
  {
    AdapterKeepsOrder(s, e);
    assert S.Apply(s.session, e).f.disposed == s.session.f.disposed;
    match s.calls[|s.calls| - 1]
    case InSession(_, op) =>
      if S.Answered(e) == op {
        OwnAnswer(s.session, e, op, h);
      } else {
        OtherAnswer(s.session, e, op, h);
      }
    case Done(Published(_, g)) => PlayingStays(s.session, e, g);
    case _ => PlayingStays(s.session, e, h);
  }

  lemma {:induction false} GrantKeepsReopening(s: System, i: nat, answer: Answer, now: int, h: S.Handle)
    requires Reopening(s, h) && i < |s.calls| && s.calls[i].AwaitGrant?
    ensures Reopening(GrantAnswer(s, i, answer, now), h)
  {
    GrantKeepsOrder(s, i, answer, now);
    if i == |s.calls| - 1 {
      OpenReplaces(s.session, h);
    }
  }

  lemma {:induction false} ReturnKeepsReopening(s: System, i: nat, h: S.Handle)
    requires Reopening(s, h) && i < |s.calls|
    ensures Reopening(SessionReturn(s, i), h)
  {
    SessionReturnKeepsOrder(s, i);
  }

  lemma {:induction false} RevokeKeepsReopening(s: System, i: nat, ok: bool, h: S.Handle)
    requires Reopening(s, h) && i < |s.calls| && Revoking(s.calls[i])
    ensures Reopening(RevokeAnswer(s, i, ok), h)
  {
    RevokeKeepsOrder(s, i, ok);
  }

  lemma {:induction false} StepKeepsReopening(s: System, e: Event, h: S.Handle)
    requires Reopening(s, h) && !NewRequestEvent(e)
    ensures Reopening(Apply(s, e), h)
  {
    match e
    case RevokeAnswers(i, ok) =>
      if i < |s.calls| && Revoking(s.calls[i]) {
        RevokeKeepsReopening(s, i, ok, h);
      }
    case GrantAnswers(i, answer, now) =>
      if i < |s.calls| && s.calls[i].AwaitGrant? {
        GrantKeepsReopening(s, i, answer, now, h);
      }
    case SessionReturns(i) =>
      if i < |s.calls| {
        ReturnKeepsReopening(s, i, h);
      }
    case Adapter(e) =>
      if S.AdapterEvent(e) {
        AdapterKeepsReopening(s, e, h);
      }
    case _ =>
  }

  lemma {:induction false} RunKeepsReopening(s: System, events: seq<Event>, h: S.Handle)
    requires Reopening(s, h) && NoNewRequest(events)
    ensures Reopening(Exec(s, events), h)
    decreases |events|
  {
    if events == [] {
    } else {
      StepKeepsReopening(s, events[0], h);
      RunKeepsReopening(Apply(s, events[0]), events[1..], h);
    }
  }

  /** The decoder `h` is playing, and no call in flight can still change that: none is
      opening, invalidating or disposing in the session. Older opens may still wait for the
      transport. */
  ghost predicate Undisturbed(s: System, h: S.Handle) {
    Playing(s.session, h) && !s.session.f.disposed && !CloseInFlight(s)
  }

  lemma {:induction false} QuietIsUndisturbed(s: System, h: S.Handle)
    requires Quiescent(s) && s.session.f.handle == Some(h) && !s.session.f.disposed
    ensures Undisturbed(s, h)
  {
    forall i | 0 <= i < |s.session.ops|
      ensures !S.Live(s.session.ops[i])
    {
      assert S.Finished(s.session.ops[i]);
    }
  }

  /** Denied by the transport, granted too late, or refused by the adapter. */
  predicate Failed(r: Result) {
    r == GrantDenied || r == GrantExpired || r == NotPublished(S.WasRejected)
  }

  /** One more open while the decoder `h` plays, and any answers until all is quiet. The
      grant is missing exactly if that open was denied, had an expired grant or was refused
      by the adapter, and then the old decoder plays on; otherwise the new grant and the
      new decoder are there. */
  lemma {:induction false} ReopenLosesGrantIff(before: seq<Event>, after: seq<Event>, h: S.Handle)
    requires NoNewRequest(after)
    ensures var s := Exec(START, before);
            var t := Exec(Apply(s, CallOpen), after);
            Undisturbed(s, h) && Quiescent(t) ==>
              && |t.calls| == |s.calls| + 1 && t.calls[|s.calls|].Done?
              && var r := t.calls[|s.calls|].result;
              && (t.f.current.None? <==> Failed(r))
              && (t.f.current.None? ==> t.session.f.handle == Some(h))
              && (t.f.current.Some? ==> exists id: GrantId, g: S.Handle ::
                    r == Published(id, g) && t.f.current == Some(id) && t.session.f.handle == Some(g))
  {
    var s := Exec(START, before);
    var s1 := Apply(s, CallOpen);
    var t := Exec(s1, after);
    RunKeepsOrder(START, before);
    if Undisturbed(s, h) && Quiescent(t) {
      StartOpenKeepsOrder(s);
      assert forall i :: 0 <= i < |s.calls| ==> s1.calls[i] == s.calls[i];
      assert Reopening(s1, h);
      RunKeepsReopening(s1, after, h);
      CallsStay(s1, after);
    }
  }

  lemma {:induction false} CallsStay(s: System, events: seq<Event>)
    requires NoNewRequest(events)
    ensures |Exec(s, events).calls| == |s.calls|
    decreases |events|
  {
    if events == [] {
    } else {
      CallsStay(Apply(s, events[0]), events[1..]);
    }
  }
}
