/** What the coordinator makes of each answer, and over runs: a grant is decoded, and can
    become current, exactly if it had not expired when it came. */
module PlaybackAnswers {
  import opened Common
  import S = PlaybackSession
  import opened PlaybackCoordinator
  import opened PlaybackRuns

  // ── One answer ────────────────────────────────────────────────────────────

  /** An overtaken open gives its grant up and is superseded; the active one is denied, gives
      up a grant that has expired by now, or opens the decoder with it. */
  lemma {:induction false} GrantAnswerDecides(s: System, i: nat, answer: Answer, now: int)
    requires i < |s.calls| && s.calls[i].AwaitGrant? && (answer.Granted? ==> answer.id !in s.issued)
    ensures var t := Apply(s, GrantAnswers(i, answer, now));
            && i < |t.calls| && t.f == s.f
            && t.issued == s.issued + (if answer.Granted? then {answer.id} else {})
            && if i + 1 == s.f.active && answer.Granted? && answer.expiresAt > now then
                 t.calls[i] == InSession(answer.id, |s.session.ops|)
                 && t.session == S.Apply(s.session, S.CallOpen)
               else
                 && t.session == s.session
                 && t.calls[i] ==
                      if answer.Denied? then Done(if i + 1 == s.f.active then GrantDenied else Superseded)
                      else RevokingOwn(answer.id, if i + 1 == s.f.active then GrantExpired else Superseded)
  {
  }

  /** A new call is the active one. An open takes the current grant to revoke it first; a close
      leaves the grant and turns to the session. */
  lemma {:induction false} NewCallDecides(s: System, final: bool)
    ensures var t, u := Apply(s, CallOpen), Apply(s, CallClose(final));
            && t.f == Fields(s.f.seqNo + 1, s.f.seqNo + 1, None, s.f.pending) && t.session == s.session
            && t.calls == s.calls + [match s.f.current case Some(id) => RevokingPrevious(id) case None => AwaitGrant]
            && u.f == Fields(s.f.seqNo + 1, s.f.seqNo + 1, s.f.current, s.f.pending)
            && u.calls == s.calls + [ClosingSession(|s.session.ops|)]
            && u.session == S.Apply(s.session, S.CallClose(if final then S.Dispose else S.Invalidate))
  {
  }

  /** When the session has answered an open, its grant becomes current exactly if it is still
      the active call and the decoder was published; otherwise the grant is given up. */
  lemma {:induction false} SessionAnswerDecides(s: System, i: nat, op: nat)
    requires i < |s.calls| && s.calls[i].InSession? && s.calls[i].op == op
    requires op < |s.session.ops| && s.session.ops[op].Opened?
    ensures var t, id, outcome := Apply(s, SessionReturns(i)), s.calls[i].id, s.session.ops[op].outcome;
            && t.session == s.session && t.f.pending == s.f.pending && t.f.active == s.f.active
            && if i + 1 == s.f.active && outcome.Published? then
                 t.f.current == Some(id) && t.calls == s.calls[i := Done(Published(id, outcome.handle))]
               else
                 && t.f.current == s.f.current
                 && t.calls ==
                      s.calls[i := RevokingOwn(id, if i + 1 == s.f.active then NotPublished(outcome) else Superseded)]
  {
  }

  /** When the session has answered a close, whatever grant is current is taken to be revoked,
      whoever made it current. */
  lemma {:induction false} CloseAnswerDecides(s: System, i: nat, op: nat)
    requires i < |s.calls| && s.calls[i].ClosingSession? && s.calls[i].op == op
    requires op < |s.session.ops| && s.session.ops[op].Closed?
    ensures var t := Apply(s, SessionReturns(i));
            && t.f == Fields(s.f.seqNo, s.f.active, None, s.f.pending) && t.session == s.session
            && t.calls == s.calls[i := match s.f.current case Some(id) => RevokingCurrent(id) case None => ClosedDown]
  {
  }

  /** No call goes on before the session has answered it. */
  lemma {:induction false} CallsWaitForTheSession(s: System, i: nat)
    requires i < |s.calls| && (s.calls[i].InSession? || s.calls[i].ClosingSession?) && s.calls[i].op < |s.session.ops|
    requires !s.session.ops[s.calls[i].op].Opened? && !s.session.ops[s.calls[i].op].Closed?
    ensures Apply(s, SessionReturns(i)) == s
  {
  }

  /** A revocation that fails is pending, one that succeeds is not; the call goes on the same
      way, an open to its request. */
  lemma {:induction false} RevocationDecides(s: System, i: nat, ok: bool)
    requires i < |s.calls| && (s.calls[i].RevokingPrevious? || s.calls[i].RevokingOwn? || s.calls[i].RevokingCurrent?)
    ensures var t, id := Apply(s, RevokeAnswers(i, ok)), s.calls[i].id;
            && t.session == s.session && t.f.current == s.f.current && t.f.active == s.f.active
            && (id in t.f.pending <==> !ok) && t.f.pending - {id} == s.f.pending - {id}
            && (t.revoked == if ok then s.revoked + {id} else s.revoked)
            && t.calls == s.calls[i := if s.calls[i].RevokingPrevious? then AwaitGrant
                                       else if s.calls[i].RevokingOwn? then Done(s.calls[i].result) else ClosedDown]
  {
  }

  /** A retry goes through the grants that were pending when it was called; each one revoked
      is struck off, each failure stays as it is. */
  lemma {:induction false} RetryDecides(s: System, todo: seq<GrantId>, j: nat, ok: bool)
    ensures multiset(todo) == multiset(s.f.pending) ==>
              Apply(s, CallRetry(todo)) == s.(retries := s.retries + [todo])
    ensures j < |s.retries| && s.retries[j] != [] ==>
              var t, id := Apply(s, RetryAnswers(j, ok)), s.retries[j][0];
              && t.f == Fields(s.f.seqNo, s.f.active, s.f.current, if ok then s.f.pending - {id} else s.f.pending)
              && t.retries == s.retries[j := s.retries[j][1..]] && t.calls == s.calls && t.session == s.session
              && (t.revoked == if ok then s.revoked + {id} else s.revoked)
  {
  }

  // ── The answers of a run ──────────────────────────────────────────────────

  datatype Receipt = Receipt(answer: Answer, now: int)

  predicate Takes(s: System, e: Event) {
    && e.GrantAnswers? && e.call < |s.calls| && s.calls[e.call].AwaitGrant?
    && (e.answer.Granted? ==> e.answer.id !in s.issued)
  }

  /** What each open was answered, and when. */
  function Receipts(events: seq<Event>): map<nat, Receipt> {
    if events == [] then map[]
    else
      var front, last := events[..|events| - 1], events[|events| - 1];
      if Takes(Exec(START, front), last) then Receipts(front)[last.call := Receipt(last.answer, last.now)]
      else Receipts(front)
  }

  lemma {:induction false} ExecLast(s: System, events: seq<Event>)
    requires events != []
    ensures Exec(s, events) == Apply(Exec(s, events[..|events| - 1]), events[|events| - 1])
    decreases |events|
  {
    if |events| == 1 {
      assert events[..0] == [] && events[1..] == [];
    } else {
      var front := events[..|events| - 1];
      ExecLast(Apply(s, events[0]), events[1..]);
      assert front[1..] == events[1..][..|events[1..]| - 1];
    }
  }

  predicate GrantedInTime(r: Receipt, id: GrantId) {
    r.answer.Granted? && r.answer.id == id && r.answer.expiresAt > r.now
  }

  predicate GrantedTooLate(r: Receipt) {
    r.answer.Granted? && r.answer.expiresAt <= r.now
  }

  predicate ResultFits(result: Result, r: Receipt) {
    match result
    case Superseded => true
    case GrantDenied => r.answer.Denied?
    case GrantExpired => GrantedTooLate(r)
    case NotPublished(_) => r.answer.Granted? && r.answer.expiresAt > r.now
    case Published(id, _) => GrantedInTime(r, id)
  }

  /** A call that has had its answer stands where the answer put it. */
  predicate CallFits(call: Call, r: Receipt) {
    match call
    case InSession(id, _) => GrantedInTime(r, id)
    case RevokingOwn(id, result) => r.answer.Granted? && r.answer.id == id && ResultFits(result, r)
    case Done(result) => ResultFits(result, r)
    case _ => false
  }

  predicate Answerable(call: Call) {
    call.InSession? || call.RevokingOwn? || call.Done?
  }

  ghost predicate CallsFit(s: System, receipts: map<nat, Receipt>) {
    forall j :: 0 <= j < |s.calls| ==>
      if Answerable(s.calls[j]) then j in receipts && CallFits(s.calls[j], receipts[j]) else j !in receipts
  }

  ghost predicate CurrentFits(s: System, receipts: map<nat, Receipt>) {
    s.f.current.Some? ==> exists j: nat :: j in receipts && GrantedInTime(receipts[j], s.f.current.value)
  }

  ghost predicate Fits(s: System, receipts: map<nat, Receipt>) {
    && CallsFit(s, receipts) && CurrentFits(s, receipts)
    && (forall j :: j in receipts ==> j < |s.calls|)
  }

  lemma {:induction false} TakeFits(s: System, e: Event, receipts: map<nat, Receipt>)
    requires Fits(s, receipts) && Takes(s, e)
    ensures Fits(Apply(s, e), receipts[e.call := Receipt(e.answer, e.now)])
  {
    var t, next := Apply(s, e), receipts[e.call := Receipt(e.answer, e.now)];
    GrantAnswerDecides(s, e.call, e.answer, e.now);
    if s.f.current.Some? {
      var j :| j in receipts && GrantedInTime(receipts[j], s.f.current.value);
      assert Answerable(s.calls[j]);
      assert j in next && next[j] == receipts[j];
    }
  }

  lemma {:induction false} ReturnFits(s: System, i: nat, receipts: map<nat, Receipt>)
    requires Fits(s, receipts) && i < |s.calls|
    ensures Fits(SessionReturn(s, i), receipts)
  {
    var t := SessionReturn(s, i);
    if t.f.current.Some? && t.f.current != s.f.current {
      assert i in receipts && GrantedInTime(receipts[i], t.f.current.value);
    }
  }

  lemma {:induction false} RevokeFits(s: System, e: Event, receipts: map<nat, Receipt>)
    requires Fits(s, receipts) && e.RevokeAnswers?
    ensures Fits(Apply(s, e), receipts)
  {
  }

  lemma {:induction false} OtherFits(s: System, e: Event, receipts: map<nat, Receipt>)
    requires Fits(s, receipts) && !Takes(s, e) && !e.SessionReturns? && !e.RevokeAnswers?
    ensures Fits(Apply(s, e), receipts)
  {
  }

  lemma {:induction false} RunFits(events: seq<Event>)
    ensures Fits(Exec(START, events), Receipts(events))
  {
    if events == [] {
    } else {
      var front, last := events[..|events| - 1], events[|events| - 1];
      RunFits(front);
      ExecLast(START, events);
      if Takes(Exec(START, front), last) {
        TakeFits(Exec(START, front), last, Receipts(front));
      } else if last.SessionReturns? {
        if last.call < |Exec(START, front).calls| {
          ReturnFits(Exec(START, front), last.call, Receipts(front));
        }
      } else if last.RevokeAnswers? {
        RevokeFits(Exec(START, front), last, Receipts(front));
      } else {
        OtherFits(Exec(START, front), last, Receipts(front));
      }
    }
  }

  /** In every run each open that is past its answer stands where that answer put it: denied
      if it was denied, expired if the grant was not valid after the instant it came, in the
      session or beyond only with a grant that was. */
  lemma {:induction false} AnswersDecideOpens(events: seq<Event>, j: nat)
    ensures var s, receipts := Exec(START, events), Receipts(events);
            j < |s.calls| ==>
              if Answerable(s.calls[j]) then j in receipts && CallFits(s.calls[j], receipts[j]) else j !in receipts
  {
    RunFits(events);
  }

  /** No grant ever becomes current that had expired when it was handed out. */
  lemma {:induction false} NoExpiredGrantIsCurrent(events: seq<Event>, id: GrantId)
    requires Exec(START, events).f.current == Some(id)
    ensures exists j: nat :: j in Receipts(events) && GrantedInTime(Receipts(events)[j], id)
  {
    RunFits(events);
    var receipts := Receipts(events);
    var j :| j in receipts && GrantedInTime(receipts[j], id);
    assert j in Receipts(events) && GrantedInTime(Receipts(events)[j], id);
  }

  /** Latest request wins, in terms of its answer: with opens only, once quiet, the last open
      was denied, or came too late, or was refused by the adapter, and then there is no
      current grant; or its grant and its decoder are the current ones. */
  lemma {:induction false} LatestOpenFollowsItsAnswer(events: seq<Event>)
    requires NoClose(events)
    ensures var s, receipts := Exec(START, events), Receipts(events);
            Quiescent(s) && s.calls != [] ==>
              var j := |s.calls| - 1;
              && s.calls[j].Done? && j in receipts
              && var r, result := receipts[j], s.calls[j].result;
              && (result == GrantDenied <==> r.answer.Denied?)
              && (result == GrantExpired <==> GrantedTooLate(r))
              && (result == NotPublished(S.WasRejected) || result.Published? <==>
                    r.answer.Granted? && r.answer.expiresAt > r.now)
              && (result.Published? ==>
                    && s.f.current == Some(r.answer.id) && s.session.f.handle == Some(result.handle))
              && (!result.Published? ==> s.f.current.None?)
  {
    LatestOpenWins(events);
    RunFits(events);
  }
}
