/** What each event of a preview stream decides, said of the session as a whole, and the
    laws of runs that follow: when an error may be answered, and what bars a first byte. */
module PreviewReplies {
  import opened Common
  import opened PreviewHandler
  import opened PreviewStream

  // ── A GET until its first spawn ───────────────────────────────────────────

  /** A GET may go on at once exactly if every process has exited, else it takes over. */
  lemma {:induction false} GetDecides(s: System)
    ensures var t := Apply(s, Get);
            && t.procs == s.procs
            && (s.closing ==> t.handlers == s.handlers)
            && (!s.closing ==>
                  |t.handlers| == |s.handlers| + 1 &&
                  t.handlers[|s.handlers|] ==
                    if forall p :: 0 <= p < |s.procs| ==> s.procs[p].exited then Taken(true) else Taking)
  {
  }

  /** After the bounded wait it may go on exactly if the wait was met and every process has
      exited. */
  lemma {:induction false} TakeoverDecides(s: System, k: nat, reaped: bool)
    requires k < |s.handlers| && s.handlers[k].Taking?
    ensures var t := Apply(s, TakeoverEnds(k, reaped));
            t.handlers[k] == Taken(reaped && forall p :: 0 <= p < |s.procs| ==> s.procs[p].exited)
  {
  }

  /** Superseded, then cancelled, then not reaped, then without capacity; otherwise the GET
      is served: with an error if there is nothing to try or no time left, else by one
      process for the first attempt. */
  lemma {:induction false} ResumeDecides(s: System, e: Event)
    requires e.Resume? && e.k < |s.handlers| && s.handlers[e.k].Taken?
    ensures var t := Apply(s, e);
            var h := t.handlers[e.k];
            if e.k + 1 < |s.handlers| then h == Refused(409) && t.procs == s.procs
            else if s.closing then h == Refused(410) && t.procs == s.procs
            else if !s.handlers[e.k].proceed then h == Refused(503) && t.procs == s.procs
            else if !e.lease then h == Refused(409) && t.procs == s.procs
            else if e.chain == 0 then h.Serving? && EndedWith(h.l, [502]) && t.procs == s.procs
            else if e.env.late then
              h.Serving? && EndedWith(h.l, [ErrorStatusForCategory(e.env.category)]) && t.procs == s.procs
            else
              && t.procs == s.procs + [Proc(e.k, false, false)]
              && h.Serving? && h.l.headers == [] && !h.l.responseEnded && h.l.retry.None?
              && h.l.chain == e.chain && h.l.videoOnly == e.videoOnly && !h.l.clientGone
              && !h.l.firstByteSent && !h.l.deadlineTerminated && !h.l.detached
              && Tries(h.l, |s.procs|, 0, e.videoOnly)
  {
  }

  /** The response is over, with these status lines, and nothing is left to wait for. */
  predicate EndedWith(l: Locals, headers: seq<int>) {
    l.responseEnded && l.headers == headers && l.attempt.None? && l.retry.None?
  }

  /** A new attempt waits for its first byte. */
  predicate Tries(l: Locals, proc: nat, index: nat, videoOnly: bool) {
    && l.attempt.Some?
    && var a := l.attempt.value;
    && a.proc == proc && a.index == index && a.videoOnly == videoOnly && a.phase == WaitingFirstByte
    && !a.timedOut && !a.exited && !a.sawData && !a.restartPending
  }

  // ── The first byte ────────────────────────────────────────────────────────

  /** The five conditions of the source, and that the data is the first. */
  predicate MayAccept(l: Locals) {
    && l.attempt.Some? && !l.clientGone && !l.responseEnded
    && !l.attempt.value.sawData && l.attempt.value.phase == WaitingFirstByte
    && !l.attempt.value.timedOut && !l.attempt.value.exited
  }

  predicate Accepted(l: Locals, m: Locals) {
    && (m.firstByteSent <==> l.firstByteSent || MayAccept(l))
    && (m.headers == if MayAccept(l) then [200] else l.headers)
    && (m.responseEnded == l.responseEnded && m.retry == l.retry)
    && m.attempt.Some? && m.attempt.value.sawData
    && (MayAccept(l) ==> m.attempt.value.phase == Streaming)
  }

  lemma {:induction false} OpenHasNoStatus(l: Locals)
    requires LocalsOk(l) && MayAccept(l)
    ensures l.headers == []
  {
  }

  /** Data is accepted exactly then, and the 200 is written with it. */
  lemma {:induction false} FirstDataDecides(s: System, k: nat)
    requires Attempting(s, k) && LocalsOk(s.handlers[k].l)
    ensures Serves(Apply(s, FirstData(k)), k) && Accepted(s.handlers[k].l, Apply(s, FirstData(k)).handlers[k].l)
  {
    if MayAccept(s.handlers[k].l) {
      OpenHasNoStatus(s.handlers[k].l);
    }
  }

  /** The attempt is over for the client before it delivered a byte. */
  predicate Barred(s: System, k: nat) {
    Serves(s, k) && !s.handlers[k].l.firstByteSent && !MayAccept(s.handlers[k].l)
    && (s.handlers[k].l.attempt.Some? ==>
          || s.handlers[k].l.attempt.value.phase == Terminal
          || s.handlers[k].l.responseEnded || s.handlers[k].l.clientGone)
  }

  predicate Ends(e: Event, k: nat) {
    || e == Event.FirstByteTimeout(k) || e == AudioEvidence(k)
    || e == Exit(k) || e == ProcError(k) || e == ClientGone(k)
    || (e.Deadline? && e.k == k)
  }

  /** A timeout, an exit, an error, a disconnect, the deadline and an audio problem each bar
      the attempt that still waits. */
  lemma {:induction false} WhatBars(s: System, k: nat, e: Event)
    requires Attempting(s, k) && LocalsOk(s.handlers[k].l) && Ends(e, k)
    requires s.handlers[k].l.attempt.value.phase == WaitingFirstByte && !s.handlers[k].l.detached
    requires e.AudioEvidence? ==> !s.handlers[k].l.attempt.value.videoOnly
    ensures Barred(Apply(s, e), k)
  {
  }

  predicate Restarts(e: Event, k: nat) {
    (e.Close? || e.RetryFires?) && e.k == k
  }

  lemma {:induction false} OwnEventBars(s: System, k: nat, e: Event)
    requires Barred(s, k) && !Restarts(e, k) && !e.Get? && !e.Delete? && e.k == k
    ensures Barred(Apply(s, e), k)
  {
  }

  lemma {:induction false} StaysBarred(s: System, k: nat, e: Event)
    requires Barred(s, k) && !Restarts(e, k)
    ensures Barred(Apply(s, e), k)
  {
    if e.Get? || e.Delete? {
    } else if e.k == k {
      OwnEventBars(s, k, e);
    } else {
      OthersStay(s, e, k);
    }
  }

  /** Whatever comes late, a barred attempt never delivers: until the handler goes on to
      another attempt no first byte is accepted. */
  lemma {:induction false} BarredAcceptsNothing(s: System, events: seq<Event>, k: nat)
    requires Barred(s, k) && forall i :: 0 <= i < |events| ==> !Restarts(events[i], k)
    ensures Serves(Exec(s, events), k) && !Exec(s, events).handlers[k].l.firstByteSent
    decreases |events|
  {
    if events == [] {
    } else {
      StaysBarred(s, k, events[0]);
      BarredAcceptsNothing(Apply(s, events[0]), events[1..], k);
    }
  }

  // ── The close of an attempt ───────────────────────────────────────────────

  predicate Mine(s: System, k: nat) {
    k + 1 == |s.handlers| && !s.closing && s.handlers[k].Serving? && !s.handlers[k].l.clientGone
  }

  /** The same index is due again without audio. */
  predicate RestartDue(l: Locals, env: Env) {
    && l.attempt.Some?
    && (l.attempt.value.restartPending
        || (!l.deadlineTerminated && !l.firstByteSent && !l.attempt.value.videoOnly && env.audio))
  }

  /** The next index is due. */
  predicate AdvanceDue(l: Locals, env: Env) {
    && l.attempt.Some? && !l.attempt.value.restartPending && !l.deadlineTerminated && !l.firstByteSent
    && l.attempt.value.index + 1 < l.chain && !env.stops && !l.clientGone
  }

  lemma {:induction false} CloseRestarts(s: System, k: nat, env: Env)
    requires Attempting(s, k) && LocalsOk(s.handlers[k].l)
    requires Mine(s, k) && RestartDue(s.handlers[k].l, env)
    ensures var l := s.handlers[k].l;
            var t := Apply(s, Close(k, env));
            if env.late then |t.procs| == |s.procs| && t.handlers[k].Serving? && t.handlers[k].l.responseEnded
            else
              && |t.procs| == |s.procs| + 1 && t.procs[|s.procs|] == Proc(k, false, false)
              && t.handlers[k].Serving? && Tries(t.handlers[k].l, |s.procs|, l.attempt.value.index, true)
              && t.handlers[k].l.headers == l.headers && t.handlers[k].l.responseEnded == l.responseEnded
              && t.handlers[k].l.videoOnly
  {
  }

  lemma {:induction false} CloseAdvances(s: System, k: nat, env: Env)
    requires Attempting(s, k) && LocalsOk(s.handlers[k].l)
    requires !(Mine(s, k) && RestartDue(s.handlers[k].l, env)) && AdvanceDue(s.handlers[k].l, env)
    ensures var l := s.handlers[k].l;
            var t := Apply(s, Close(k, env));
            && |t.procs| == |s.procs| && t.handlers[k].Serving?
            && t.handlers[k].l == l.(attempt := None, retry := Some(l.attempt.value.index + 1))
  {
  }

  /** The status a response ends with that has none yet: none for a client that is gone, the
      failure's own for a failed chain, else the safety 502. */
  function ClosingStatus(s: System, l: Locals, env: Env): seq<int>
    requires l.attempt.Some?
  {
    if l.headers != [] || l.responseEnded || l.clientGone then l.headers
    else if l.attempt.value.restartPending || l.deadlineTerminated || s.closing then [502]
    else [ErrorStatusForCategory(env.category)]
  }

  lemma {:induction false} CloseCancels(s: System, k: nat, env: Env)
    requires Attempting(s, k) && LocalsOk(s.handlers[k].l) && !(Mine(s, k) && RestartDue(s.handlers[k].l, env))
    requires s.handlers[k].l.attempt.value.restartPending || s.handlers[k].l.deadlineTerminated
    ensures var t := Apply(s, Close(k, env));
            && |t.procs| == |s.procs| && t.handlers[k].Serving?
            && EndedWith(t.handlers[k].l, ClosingStatus(s, s.handlers[k].l, env))
  {
  }

  lemma {:induction false} CloseFails(s: System, k: nat, env: Env)
    requires Attempting(s, k) && LocalsOk(s.handlers[k].l) && !(Mine(s, k) && RestartDue(s.handlers[k].l, env))
    requires !s.handlers[k].l.attempt.value.restartPending && !s.handlers[k].l.deadlineTerminated
    requires !AdvanceDue(s.handlers[k].l, env)
    ensures var t := Apply(s, Close(k, env));
            && |t.procs| == |s.procs| && t.handlers[k].Serving?
            && EndedWith(t.handlers[k].l, ClosingStatus(s, s.handlers[k].l, env))
  {
  }

  lemma {:induction false} CloseEnds(s: System, k: nat, env: Env)
    requires Attempting(s, k) && LocalsOk(s.handlers[k].l)
    requires !(Mine(s, k) && RestartDue(s.handlers[k].l, env)) && !AdvanceDue(s.handlers[k].l, env)
    ensures var t := Apply(s, Close(k, env));
            && |t.procs| == |s.procs| && t.handlers[k].Serving?
            && EndedWith(t.handlers[k].l, ClosingStatus(s, s.handlers[k].l, env))
  {
    if s.handlers[k].l.attempt.value.restartPending || s.handlers[k].l.deadlineTerminated {
      CloseCancels(s, k, env);
    } else {
      CloseFails(s, k, env);
    }
  }

  /** Closing an attempt restarts it without audio, arms the next one or ends the response,
      and which of these is decided by what a reader of the session sees. */
  lemma {:induction false} CloseDecides(s: System, k: nat, env: Env)
    requires Attempting(s, k) && LocalsOk(s.handlers[k].l)
    ensures var l := s.handlers[k].l;
            var t := Apply(s, Close(k, env));
            && t.handlers[k].Serving? && t.procs[l.attempt.value.proc].closed
            && var m := t.handlers[k].l;
            && (m.attempt.Some? <==> Mine(s, k) && RestartDue(l, env) && !env.late)
            && (m.retry == if !(Mine(s, k) && RestartDue(l, env)) && AdvanceDue(l, env)
                           then Some(l.attempt.value.index + 1) else None)
            && (m.attempt.None? && m.retry.None? ==> m.responseEnded)
            && (m.attempt.Some? || m.retry.Some? ==> m.headers == l.headers && m.responseEnded == l.responseEnded)
  {
    if Mine(s, k) && RestartDue(s.handlers[k].l, env) {
      CloseRestarts(s, k, env);
    } else if AdvanceDue(s.handlers[k].l, env) {
      CloseAdvances(s, k, env);
    } else {
      CloseEnds(s, k, env);
    }
    CloseIsNoted(s, k, env);
  }

  lemma {:induction false} CloseIsNoted(s: System, k: nat, env: Env)
    requires Attempting(s, k)
    ensures var p := s.handlers[k].l.attempt.value.proc;
            var t := Apply(s, Close(k, env));
            p < |t.procs| && t.procs[p].closed && t.procs[p].exited
  {
  }

  lemma {:induction false} RetryIsIdle(l: Locals)
    requires LocalsOk(l) && l.retry.Some?
    ensures l.attempt.None? && !l.firstByteSent
  {
  }

  lemma {:induction false} RetrySpawns(s: System, k: nat, env: Env)
    requires Serves(s, k) && s.handlers[k].l.retry.Some? && Mine(s, k) && !env.late
    ensures var l := s.handlers[k].l;
            var t := Apply(s, RetryFires(k, env));
            && t.procs == s.procs + [Proc(k, false, false)] && t.handlers[k].Serving? && t.handlers[k].l.retry.None?
            && Tries(t.handlers[k].l, |s.procs|, l.retry.value, l.videoOnly)
            && t.handlers[k].l.headers == l.headers && t.handlers[k].l.responseEnded == l.responseEnded
  {
  }

  lemma {:induction false} RetryEnds(s: System, k: nat, env: Env)
    requires Serves(s, k) && s.handlers[k].l.retry.Some? && !(Mine(s, k) && !env.late)
    requires s.handlers[k].l.attempt.None? && !s.handlers[k].l.firstByteSent
    ensures var t := Apply(s, RetryFires(k, env));
            && t.procs == s.procs && t.handlers[k].Serving? && t.handlers[k].l.retry.None?
            && t.handlers[k].l.attempt.None? && t.handlers[k].l.responseEnded
  {
  }

  /** The armed attempt is made by an owner whose client waits, if time is left; otherwise
      the response ends. */
  lemma {:induction false} RetryDecides(s: System, k: nat, env: Env)
    requires Serves(s, k) && s.handlers[k].l.retry.Some? && LocalsOk(s.handlers[k].l)
    ensures var l := s.handlers[k].l;
            var t := Apply(s, RetryFires(k, env));
            && t.handlers[k].Serving? && t.handlers[k].l.retry.None?
            && if Mine(s, k) && !env.late then
                 && t.procs == s.procs + [Proc(k, false, false)]
                 && Tries(t.handlers[k].l, |s.procs|, l.retry.value, l.videoOnly)
                 && t.handlers[k].l.headers == l.headers && t.handlers[k].l.responseEnded == l.responseEnded
               else
                 t.procs == s.procs && t.handlers[k].l.attempt.None? && t.handlers[k].l.responseEnded
  {
    RetryIsIdle(s.handlers[k].l);
    if Mine(s, k) && !env.late {
      RetrySpawns(s, k, env);
    } else {
      RetryEnds(s, k, env);
    }
  }

  // ── Why a waiting client gets an error ────────────────────────────────────

  predicate WithError(s: System, k: nat) {
    Serves(s, k) && s.handlers[k].l.headers != [] && s.handlers[k].l.headers != [200] && !s.handlers[k].l.clientGone
  }

  /** The stream was lost to a newer GET or to the teardown. */
  predicate Lost(s: System, k: nat) {
    k + 1 < |s.handlers| || s.closing
  }

  /** Every attempt of the chain has been spawned. */
  predicate AllTried(s: System, k: nat) {
    Serves(s, k) && s.handlers[k].l.chain <= SpawnedBy(s.procs, k)
  }

  /** The deadline, a process that could not be run, no time left for a start, a failure
      that stops the chain, a lost stream, or nothing left to try. */
  predicate Excuses(s: System, e: Event, k: nat) {
    || (e.Deadline? && e.k == k)
    || e == ProcError(k)
    || ((e.Resume? || e.RetryFires? || e.Close?) && e.k == k && e.env.late)
    || (e.Close? && e.k == k && e.env.stops)
    || (e.Resume? && e.k == k && e.chain == 0)
    || Lost(s, k)
    || AllTried(s, k)
  }

  lemma {:induction false} CloseHasReason(s: System, k: nat, env: Env)
    requires Attempting(s, k) && LocalsOk(s.handlers[k].l) && s.handlers[k].l.headers == []
    requires k < |s.handlers| && SpawnedBy(s.procs, k) == s.handlers[k].l.spawned
    requires !env.late && !env.stops && !Lost(s, k) && !AllTried(s, k) && !s.handlers[k].l.responseEnded
    requires !s.handlers[k].l.deadlineTerminated
    ensures !WithError(Apply(s, Close(k, env)), k)
  {
    CloseDecides(s, k, env);
    if !(Mine(s, k) && RestartDue(s.handlers[k].l, env)) && !AdvanceDue(s.handlers[k].l, env) {
      CloseEnds(s, k, env);
    }
  }

  ghost predicate NoErrorYet(s: System, k: nat) {
    Serves(s, k) ==>
      && !s.handlers[k].l.deadlineTerminated
      && (s.handlers[k].l.clientGone || s.handlers[k].l.headers == [] || s.handlers[k].l.headers == [200])
  }

  lemma {:induction false} ClosesQuietly(s: System, k: nat, env: Env)
    requires Inv(s) && NoErrorYet(s, k) && !Excuses(s, Close(k, env), k)
    ensures NoErrorYet(Apply(s, Close(k, env)), k)
  {
    if Attempting(s, k) && !s.handlers[k].l.clientGone {
      if s.handlers[k].l.headers == [] {
        CloseHasReason(s, k, env);
      }
    }
  }

  lemma {:induction false} OwnEventQuietly(s: System, e: Event, k: nat)
    requires Inv(s) && NoErrorYet(s, k) && !Excuses(s, e, k) && !e.Get? && !e.Delete? && e.k == k
    ensures NoErrorYet(Apply(s, e), k)
  {
    if e.Close? {
      ClosesQuietly(s, k, e.env);
    } else if e.Resume? && k < |s.handlers| && s.handlers[k].Taken? {
      ResumeDecides(s, e);
    } else if e.RetryFires? && Serves(s, k) && s.handlers[k].l.retry.Some? {
      RetryDecides(s, k, e.env);
    } else if e.FirstData? && Attempting(s, k) {
      FirstDataDecides(s, k);
    }
  }

  lemma {:induction false} StepQuietly(s: System, e: Event, k: nat)
    requires Inv(s) && NoErrorYet(s, k) && !Excuses(s, e, k)
    ensures NoErrorYet(Apply(s, e), k)
  {
    if e.Get? || e.Delete? {
    } else if e.k == k {
      OwnEventQuietly(s, e, k);
    } else if k < |s.handlers| {
      OthersStay(s, e, k);
    } else {
      SameHandlers(s, e);
    }
  }

  lemma {:induction false} RunHasReason(s: System, events: seq<Event>, k: nat) returns (n: nat)
    requires Inv(s) && NoErrorYet(s, k) && WithError(Exec(s, events), k)
    ensures n < |events| && Excuses(Exec(s, events[..n]), events[n], k)
    decreases |events|
  {
    if Excuses(s, events[0], k) {
      n := 0;
      assert events[..0] == [];
    } else {
      StepKeepsInv(s, events[0]);
      StepQuietly(s, events[0], k);
      var m := RunHasReason(Apply(s, events[0]), events[1..], k);
      n := m + 1;
      assert events[..n][1..] == events[1..][..m];
    }
  }

  /** A client that waits is answered with an error only after the deadline, a process that
      could not be run, a start without time left, a failure that stops the chain, the loss
      of the stream, or when every attempt of the chain has been spawned. */
  lemma {:induction false} ErrorsHaveReasons(events: seq<Event>, k: nat)
    requires WithError(Exec(START, events), k)
    ensures exists n :: 0 <= n < |events| && Excuses(Exec(START, events[..n]), events[n], k)
  {
    var n := RunHasReason(START, events, k);
  }

  // ── After a disconnect and after the teardown ─────────────────────────────

  predicate Gone(s: System, k: nat) {
    Serves(s, k) && s.handlers[k].l.clientGone
  }

  lemma {:induction false} OwnEventGone(s: System, e: Event, k: nat)
    requires Gone(s, k) && !e.Get? && !e.Delete? && e.k == k
    ensures Gone(Apply(s, e), k) && Spawned(Apply(s, e).handlers[k]) == Spawned(s.handlers[k])
  {
  }

  lemma {:induction false} GoneStaysGone(s: System, e: Event, k: nat)
    requires Gone(s, k)
    ensures Gone(Apply(s, e), k) && SpawnedBy(Apply(s, e).procs, k) == SpawnedBy(s.procs, k)
  {
    if e.Get? || e.Delete? {
    } else if e.k == k {
      OwnEventGone(s, e, k);
    } else {
      OthersStay(s, e, k);
    }
    StepSpawns(s, e);
    OthersSpawn(s, Apply(s, e), k);
  }

  /** A spawn that is not counted for `k` is not its. */
  lemma {:induction false} OthersSpawn(s: System, t: System, k: nat)
    requires SpawnsOnce(s, t) && k < |s.handlers| && Spawned(t.handlers[k]) == Spawned(s.handlers[k])
    ensures SpawnedBy(t.procs, k) == SpawnedBy(s.procs, k)
  {
    SameOwners(t.procs[..|s.procs|], s.procs, k);
    if |t.procs| == |s.procs| {
      assert t.procs[..|s.procs|] == t.procs;
    }
  }

  /** Once its client is gone a GET spawns nothing any more. */
  lemma {:induction false} GoneClientSpawnsNothing(s: System, events: seq<Event>, k: nat)
    requires Gone(s, k)
    ensures SpawnedBy(Exec(s, events).procs, k) == SpawnedBy(s.procs, k)
    decreases |events|
  {
    if events == [] {
    } else {
      GoneStaysGone(s, events[0], k);
      GoneClientSpawnsNothing(Apply(s, events[0]), events[1..], k);
    }
  }

  predicate Silent(h: Handler) {
    h.Serving? && h.l.attempt.Some? ==> h.l.responseEnded || h.l.attempt.value.phase != WaitingFirstByte
  }

  /** Nothing of a closing session can still deliver. */
  ghost predicate Silenced(s: System) {
    s.closing && forall k :: 0 <= k < |s.handlers| ==> Silent(s.handlers[k])
  }

  /** The handler may change, but accepts no first byte. */
  predicate SilentStep(h: Handler, g: Handler) {
    Silent(g) && (h.Serving? ==> g.Serving? && g.l.firstByteSent == h.l.firstByteSent)
  }

  lemma {:induction false} DeleteSilences(s: System)
    ensures Silenced(Apply(s, Delete)) && |Apply(s, Delete).handlers| == |s.handlers|
    ensures forall k :: 0 <= k < |s.handlers| ==> SilentStep(s.handlers[k], Apply(s, Delete).handlers[k])
  {
  }

  lemma {:induction false} CloseSilent(s: System, k: nat, env: Env)
    requires s.closing && k < |s.handlers| && Silent(s.handlers[k])
    ensures k < |Apply(s, Close(k, env)).handlers|
    ensures SilentStep(s.handlers[k], Apply(s, Close(k, env)).handlers[k])
  {
    if Attempting(s, k) {
      assert !CanContinue(s, k, s.handlers[k].l);
    }
  }

  lemma {:induction false} RetrySilent(s: System, k: nat, env: Env)
    requires s.closing && k < |s.handlers| && Silent(s.handlers[k])
    ensures k < |Apply(s, RetryFires(k, env)).handlers|
    ensures SilentStep(s.handlers[k], Apply(s, RetryFires(k, env)).handlers[k])
  {
    if Serves(s, k) {
      assert !CanContinue(s, k, s.handlers[k].l);
    }
  }

  lemma {:induction false} ReplySilent(s: System, e: Event)
    requires s.closing && (e.Close? || e.RetryFires? || e.Resume? || e.TakeoverEnds?)
    requires e.k < |s.handlers| && Silent(s.handlers[e.k])
    ensures e.k < |Apply(s, e).handlers| && SilentStep(s.handlers[e.k], Apply(s, e).handlers[e.k])
  {
    if e.Close? {
      CloseSilent(s, e.k, e.env);
    } else if e.RetryFires? {
      RetrySilent(s, e.k, e.env);
    }
  }

  lemma {:induction false} EventSilent(s: System, e: Event)
    requires s.closing && !e.Get? && !e.Delete?
    requires !e.Close? && !e.RetryFires? && !e.Resume? && !e.TakeoverEnds?
    requires e.k < |s.handlers| && Silent(s.handlers[e.k])
    ensures e.k < |Apply(s, e).handlers| && SilentStep(s.handlers[e.k], Apply(s, e).handlers[e.k])
  {
  }

  lemma {:induction false} OwnEventSilent(s: System, e: Event)
    requires s.closing && !e.Get? && !e.Delete? && e.k < |s.handlers| && Silent(s.handlers[e.k])
    ensures e.k < |Apply(s, e).handlers| && SilentStep(s.handlers[e.k], Apply(s, e).handlers[e.k])
  {
    if e.Close? || e.RetryFires? || e.Resume? || e.TakeoverEnds? {
      ReplySilent(s, e);
    } else {
      EventSilent(s, e);
    }
  }

  lemma {:induction false} StaysClosing(s: System, e: Event)
    requires s.closing
    ensures Apply(s, e).closing && |Apply(s, e).handlers| == |s.handlers|
  {
  }

  lemma {:induction false} StaysSilenced(s: System, e: Event)
    requires Silenced(s)
    ensures Silenced(Apply(s, e)) && |Apply(s, e).handlers| == |s.handlers|
    ensures forall k :: 0 <= k < |s.handlers| ==> SilentStep(s.handlers[k], Apply(s, e).handlers[k])
  {
    StaysClosing(s, e);
    if e.Delete? {
      DeleteSilences(s);
    } else if !e.Get? {
      forall k | 0 <= k < |s.handlers|
        ensures SilentStep(s.handlers[k], Apply(s, e).handlers[k])
      {
        if k == e.k {
          OwnEventSilent(s, e);
        } else {
          OthersStay(s, e, k);
        }
      }
    }
  }

  /** After the teardown no response accepts a first byte any more. */
  lemma {:induction false} NothingAcceptedAfterDelete(s: System, events: seq<Event>, k: nat)
    requires Silenced(s) && Serves(s, k)
    ensures Serves(Exec(s, events), k)
    ensures Exec(s, events).handlers[k].l.firstByteSent == s.handlers[k].l.firstByteSent
    decreases |events|
  {
    if events == [] {
    } else {
      StaysSilenced(s, events[0]);
      NothingAcceptedAfterDelete(Apply(s, events[0]), events[1..], k);
    }
  }
}
