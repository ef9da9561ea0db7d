/** The playback coordinator never gets stuck, and two runs that mark the limits of what
    it promises. */
module PlaybackProgress {
  import opened Common
  import S = PlaybackSession
  import opened PlaybackCoordinator
  import opened PlaybackRuns

  // ── Quiescence can always be reached ──────────────────────────────────────

  /** A call in the session waits for a session call of its own kind. */
  predicate LinkedTo(call: Call, ops: seq<S.Op>) {
    match call
    case InSession(_, op) => op < |ops| && S.OpenOp(ops[op])
    case ClosingSession(op) => op < |ops| && !S.OpenOp(ops[op])
    case _ => true
  }

  ghost predicate Linked(s: System) {
    forall i :: 0 <= i < |s.calls| ==> LinkedTo(s.calls[i], s.session.ops)
  }

  lemma {:induction false} LinkSurvives(call: Call, s: System, e: Event)
    requires LinkedTo(call, s.session.ops)
    ensures LinkedTo(call, Apply(s, e).session.ops)
  {
    SessionTakesOneStep(s, e);
    if SessionStep(s, e).Some? && (call.InSession? || call.ClosingSession?) {
      S.OpsKeepTheirKind(s.session, SessionStep(s, e).value, call.op);
    }
  }

  lemma {:induction false} StepKeepsLinks(s: System, e: Event)
    requires Linked(s)
    ensures Linked(Apply(s, e))
  {
    var t := Apply(s, e);
    forall i | 0 <= i < |t.calls|
      ensures LinkedTo(t.calls[i], t.session.ops)
    {
      if i < |s.calls| {
        LinkSurvives(s.calls[i], s, e);
      }
    }
  }

  lemma {:induction false} RunKeepsLinks(s: System, events: seq<Event>)
    requires Linked(s)
    ensures Linked(Exec(s, events))
    decreases |events|
  {
    if events == [] {
    } else {
      StepKeepsLinks(s, events[0]);
      RunKeepsLinks(Apply(s, events[0]), events[1..]);
    }
  }

  lemma {:induction false} ExecStep(s: System, e: Event, rest: seq<Event>)
    ensures Exec(s, [e] + rest) == Exec(Apply(s, e), rest)
  {
    assert ([e] + rest)[1..] == rest;
  }

  /** Three answers finish any call on the session. */
  function AnswerOp(s: System, i: nat): System {
    Apply(Apply(Apply(s, Adapter(S.AdapterFails(i))), Adapter(S.ReleaseCompletes(i))), Adapter(S.ReleaseCompletes(i)))
  }

  lemma {:induction false} AnswerOpFinishes(s: System, i: nat)
    requires i < |s.session.ops|
    ensures var t := AnswerOp(s, i);
            && |t.session.ops| == |s.session.ops| && t.session.ops == s.session.ops[i := t.session.ops[i]]
            && S.Finished(t.session.ops[i]) && S.OpenOp(t.session.ops[i]) == S.OpenOp(s.session.ops[i])
            && t.calls == s.calls && t.retries == s.retries
  {
  }

  lemma {:induction false} FinishOps(s: System, n: nat) returns (events: seq<Event>)
    requires Linked(s) && n <= |s.session.ops|
    requires forall i :: 0 <= i < n ==> S.Finished(s.session.ops[i])
    ensures NoNewRequest(events) && Linked(Exec(s, events)) && S.Quiescent(Exec(s, events).session)
    decreases |s.session.ops| - n
  {
    events := [];
    if n < |s.session.ops| {
      var e1, e2 := Adapter(S.AdapterFails(n)), Adapter(S.ReleaseCompletes(n));
      AnswerOpFinishes(s, n);
      RunKeepsLinks(s, [e1, e2, e2]);
      assert Linked(AnswerOp(s, n)) by {
        StepKeepsLinks(s, e1);
        StepKeepsLinks(Apply(s, e1), e2);
        StepKeepsLinks(Apply(Apply(s, e1), e2), e2);
      }
      var rest := FinishOps(AnswerOp(s, n), n + 1);
      events := [e1] + ([e2] + ([e2] + rest));
      ExecStep(s, e1, [e2] + ([e2] + rest));
      ExecStep(Apply(s, e1), e2, [e2] + rest);
      ExecStep(Apply(Apply(s, e1), e2), e2, rest);
    }
  }

  predicate FinishedCall(call: Call) {
    call.Done? || call.ClosedDown?
  }

  /** With the session quiet, four answers finish any call. */
  function AnswerCall(s: System, i: nat): System {
    Apply(Apply(Apply(Apply(s, RevokeAnswers(i, true)), GrantAnswers(i, Denied, 0)), SessionReturns(i)),
          RevokeAnswers(i, true))
  }

  lemma {:induction false} AnswerCallFinishes(s: System, i: nat)
    requires i < |s.calls| && LinkedTo(s.calls[i], s.session.ops) && S.Quiescent(s.session)
    ensures var t := AnswerCall(s, i);
            && |t.calls| == |s.calls| && t.calls == s.calls[i := t.calls[i]] && FinishedCall(t.calls[i])
            && t.session == s.session && t.retries == s.retries
  {
  }

  lemma {:induction false} FinishCalls(s: System, n: nat) returns (events: seq<Event>)
    requires Linked(s) && S.Quiescent(s.session) && n <= |s.calls|
    requires forall i :: 0 <= i < n ==> FinishedCall(s.calls[i])
    ensures NoNewRequest(events) && S.Quiescent(Exec(s, events).session)
    ensures forall i :: 0 <= i < |Exec(s, events).calls| ==> FinishedCall(Exec(s, events).calls[i])
    decreases |s.calls| - n
  {
    events := [];
    if n < |s.calls| {
      var e1, e2, e3 := RevokeAnswers(n, true), GrantAnswers(n, Denied, 0), SessionReturns(n);
      AnswerCallFinishes(s, n);
      var rest := FinishCalls(AnswerCall(s, n), n + 1);
      events := [e1] + ([e2] + ([e3] + ([e1] + rest)));
      ExecStep(s, e1, [e2] + ([e3] + ([e1] + rest)));
      ExecStep(Apply(s, e1), e2, [e3] + ([e1] + rest));
      ExecStep(Apply(Apply(s, e1), e2), e3, [e1] + rest);
      ExecStep(Apply(Apply(Apply(s, e1), e2), e3), e1, rest);
    }
  }

  lemma {:induction false} FinishRetries(s: System, n: nat) returns (events: seq<Event>)
    requires n <= |s.retries| && forall i :: 0 <= i < n ==> s.retries[i] == []
    requires S.Quiescent(s.session) && forall i :: 0 <= i < |s.calls| ==> FinishedCall(s.calls[i])
    ensures NoNewRequest(events) && Quiescent(Exec(s, events))
    decreases |s.retries| - n, if n < |s.retries| then |s.retries[n]| else 0
  {
    events := [];
    if n < |s.retries| {
      if s.retries[n] == [] {
        events := FinishRetries(s, n + 1);
      } else {
        var e := RetryAnswers(n, true);
        var rest := FinishRetries(Apply(s, e), n);
        events := [e] + rest;
        ExecStep(s, e, rest);
      }
    }
  }

  lemma {:induction false} ExecConcat(s: System, a: seq<Event>, b: seq<Event>)
    ensures Exec(s, a + b) == Exec(Exec(s, a), b)
    decreases |a|
  {
    if a == [] {
      assert a + b == b;
    } else {
      ExecConcat(Apply(s, a[0]), a[1..], b);
      assert (a + b)[1..] == a[1..] + b;
    }
  }

  /** No interleaving gets stuck: whatever has happened, answers of the transport and the
      adapter alone bring every call to its end. */
  lemma {:induction false} QuiescenceReachable(before: seq<Event>)
    ensures exists after :: NoNewRequest(after) && Quiescent(Exec(Exec(START, before), after))
  {
    var s := Exec(START, before);
    RunKeepsLinks(START, before);
    var a := FinishOps(s, 0);
    var s1 := Exec(s, a);
    var b := FinishCalls(s1, 0);
    var s2 := Exec(s1, b);
    var c := FinishRetries(s2, 0);
    ExecConcat(s, a, b);
    ExecConcat(s, a + b, c);
    assert NoNewRequest(a + b + c) && Quiescent(Exec(s, a + b + c));
  }

  // ── Two runs that show the limits ─────────────────────────────────────────

  const PUBLISH_ONE := [
    CallOpen, GrantAnswers(0, Granted(1, 10), 0), Adapter(S.AdapterReturns(0, 1)), SessionReturns(0)]

  const ONE_PUBLISHED := System(
    Fields(1, 1, Some(1), {}), [Done(Published(1, 1))], [],
    S.System(S.Fields(S.Playing, Some(1), 1, false), [S.Opened(S.Published(1))], 0, {1}, multiset{}), {1}, {})

  lemma {:induction false} PublishOne()
    ensures Exec(START, PUBLISH_ONE) == ONE_PUBLISHED
  {
    var e := PUBLISH_ONE;
    assert e == [e[0]] + ([e[1]] + ([e[2]] + ([e[3]] + [])));
    var s1 := Apply(START, e[0]);
    var s2 := Apply(s1, e[1]);
    var s3 := Apply(s2, e[2]);
    ExecStep(START, e[0], [e[1]] + ([e[2]] + ([e[3]] + [])));
    ExecStep(s1, e[1], [e[2]] + ([e[3]] + []));
    ExecStep(s2, e[2], [e[3]] + []);
    ExecStep(s3, e[3], []);
    assert s3.session.ops == [S.Opened(S.Published(1))];
  }

  /** A denied open leaves the decoder of the previous one running without a grant. */
  lemma {:induction false} DeniedOpenKeepsDecoder()
    ensures exists events :: NoClose(events) && Quiescent(Exec(START, events))
              && Exec(START, events).f.current.None? && Exec(START, events).session.f.handle.Some?
  {
    PublishOne();
    var e1, e2, e3 := CallOpen, RevokeAnswers(1, true), GrantAnswers(1, Denied, 0);
    var s1 := Apply(ONE_PUBLISHED, e1);
    var s2 := Apply(s1, e2);
    ExecStep(ONE_PUBLISHED, e1, [e2] + ([e3] + []));
    ExecStep(s1, e2, [e3] + []);
    ExecStep(s2, e3, []);
    var events := PUBLISH_ONE + ([e1] + ([e2] + ([e3] + [])));
    ExecConcat(START, PUBLISH_ONE, [e1] + ([e2] + ([e3] + [])));
    assert Exec(START, events).calls == [Done(Published(1, 1)), Done(GrantDenied)];
    assert NoClose(events);
  }

  const INVALIDATE_AND_REOPEN := [
    CallClose(false), CallOpen, RevokeAnswers(2, true), GrantAnswers(2, Granted(2, 10), 0),
    Adapter(S.AdapterReturns(2, 2)), SessionReturns(2)]

  const REOPENED := System(
    Fields(3, 3, Some(2), {}), [Done(Published(1, 1)), ClosingSession(1), Done(Published(2, 2))], [],
    S.System(S.Fields(S.Playing, Some(2), 3, false),
             [S.Opened(S.Published(1)), S.Closing(S.Invalidate), S.Opened(S.Published(2))], 2, {1, 2}, multiset{1}),
    {1, 2}, {1})

  lemma {:induction false} InvalidateAndReopen()
    ensures Exec(ONE_PUBLISHED, INVALIDATE_AND_REOPEN) == REOPENED
  {
    var e := INVALIDATE_AND_REOPEN;
    var s1 := Apply(ONE_PUBLISHED, e[0]);
    var s2 := Apply(s1, e[1]);
    var s3 := Apply(s2, e[2]);
    assert s3 == System(
      Fields(3, 3, None, {}), [Done(Published(1, 1)), ClosingSession(1), AwaitGrant], [],
      S.System(S.Fields(S.Playing, None, 2, false), [S.Opened(S.Published(1)), S.Closing(S.Invalidate)],
               1, {1}, multiset{1}),
      {1}, {1});
    assert e == [e[0]] + ([e[1]] + ([e[2]] + e[3..]));
    ExecStep(ONE_PUBLISHED, e[0], [e[1]] + ([e[2]] + e[3..]));
    ExecStep(s1, e[1], [e[2]] + e[3..]);
    ExecStep(s2, e[2], e[3..]);
    Reopen(s3);
  }

  lemma {:induction false} Reopen(s3: System)
    requires s3 == System(
      Fields(3, 3, None, {}), [Done(Published(1, 1)), ClosingSession(1), AwaitGrant], [],
      S.System(S.Fields(S.Playing, None, 2, false), [S.Opened(S.Published(1)), S.Closing(S.Invalidate)],
               1, {1}, multiset{1}),
      {1}, {1})
    ensures Exec(s3, INVALIDATE_AND_REOPEN[3..]) == REOPENED
  {
    var e := INVALIDATE_AND_REOPEN;
    var s4 := Apply(s3, e[3]);
    var s5 := Apply(s4, e[4]);
    assert e[3..] == [e[3]] + ([e[4]] + ([e[5]] + []));
    ExecStep(s3, e[3], [e[4]] + ([e[5]] + []));
    ExecStep(s4, e[4], [e[5]] + []);
    ExecStep(s5, e[5], []);
    assert s5.session.ops == REOPENED.session.ops;
    assert {1} + {2} == {1, 2};
  }

  /** The last open was published and nothing superseded it, yet an earlier invalidate
      takes its grant and leaves its decoder running: the case shut out by the condition
      of LatestOpenKeepsGrantIff does occur. */
  lemma {:induction false} InvalidateTakesLaterGrant()
    ensures exists before, after :: NoNewRequest(after)
              && Exec(START, before) == REOPENED && Quiescent(Exec(REOPENED, after))
              && Exec(REOPENED, after).f.current != Some(2) && Exec(REOPENED, after).session.f.handle == Some(2)
  {
    var before := PUBLISH_ONE + INVALIDATE_AND_REOPEN;
    PublishOne();
    InvalidateAndReopen();
    ExecConcat(START, PUBLISH_ONE, INVALIDATE_AND_REOPEN);
    QuiescenceReachable(before);
    var after :| NoNewRequest(after) && Quiescent(Exec(REOPENED, after));
    assert Closing(REOPENED.calls[1]);
    LatestOpenKeepsGrantIff(before, after, 2, 2);
  }
}
