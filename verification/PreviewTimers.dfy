/** The timers, exits and disconnects of a preview stream: what each leaves behind, and what
    none of them touches once a first byte was accepted. */
module PreviewTimers {
  import opened Common
  import opened PreviewHandler
  import opened PreviewStream
  import opened PreviewReplies

  // ── Before the first byte ─────────────────────────────────────────────────

  /** A first-byte timeout marks the attempt that still waits and answers nothing yet; an
      attempt past waiting is not touched. */
  lemma {:induction false} TimeoutDecides(s: System, k: nat)
    requires Attempting(s, k) && !s.handlers[k].l.detached
    ensures var a := s.handlers[k].l.attempt.value;
            var t := Apply(s, Event.FirstByteTimeout(k));
            if s.handlers[k].l.firstByteSent || a.phase != WaitingFirstByte then t == s
            else
              && t.procs == s.procs && Serves(t, k)
              && t.handlers[k].l == s.handlers[k].l.(attempt := Some(a.(timedOut := true, phase := Terminal)))
  {
  }

  /** An exit is noted with the attempt and with its process, and ends the wait for a byte; a
      stream that delivers goes on, its pipe may still hold data. */
  lemma {:induction false} ExitDecides(s: System, k: nat)
    requires Attempting(s, k)
    ensures var l := s.handlers[k].l;
            var t := Apply(s, Exit(k));
            && Serves(t, k) && t.handlers[k].l.attempt.Some? && l.attempt.value.proc < |t.procs|
            && var m := t.handlers[k].l;
            && t.procs[l.attempt.value.proc].exited && m.attempt.value.exited
            && m.attempt.value.phase == (if l.attempt.value.phase == Streaming then Streaming else Terminal)
            && m.headers == l.headers && m.responseEnded == l.responseEnded && m.retry == l.retry
  {
  }

  /** An audio problem, seen before a byte of an attempt with audio, makes the close of that
      attempt start the same index once more without audio. */
  lemma {:induction false} AudioRestarts(s: System, k: nat, env: Env)
    requires Attempting(s, k) && LocalsOk(s.handlers[k].l) && Mine(s, k) && !env.late
    requires !s.handlers[k].l.firstByteSent && !s.handlers[k].l.attempt.value.videoOnly
    ensures var t := Apply(Apply(s, AudioEvidence(k)), Close(k, env));
            && |t.procs| == |s.procs| + 1 && Serves(t, k) && t.handlers[k].l.videoOnly
            && Tries(t.handlers[k].l, |s.procs|, s.handlers[k].l.attempt.value.index, true)
  {
    var r := Apply(s, AudioEvidence(k));
    AudioIsNoted(s, k);
    CloseRestarts(r, k, env);
  }

  lemma {:induction false} AudioIsNoted(s: System, k: nat)
    requires Attempting(s, k) && LocalsOk(s.handlers[k].l)
    requires !s.handlers[k].l.firstByteSent && !s.handlers[k].l.attempt.value.videoOnly
    ensures var a := s.handlers[k].l.attempt.value;
            var r := Apply(s, AudioEvidence(k));
            && r.procs == s.procs && r.closing == s.closing && |r.handlers| == |s.handlers|
            && Attempting(r, k) && LocalsOk(r.handlers[k].l)
            && r.handlers[k].l.attempt.value.restartPending && r.handlers[k].l.attempt.value.index == a.index
            && r.handlers[k].l.clientGone == s.handlers[k].l.clientGone
  {
  }

  /** The total budget ends an open response without a first byte with the error reported,
      and then no close goes on in the chain, only an audio restart already due. */
  lemma {:induction false} DeadlineEnds(s: System, k: nat, env: Env, closing: Env)
    requires Attempting(s, k) && LocalsOk(s.handlers[k].l) && !s.handlers[k].l.detached && MayAccept(s.handlers[k].l)
    requires !s.handlers[k].l.attempt.value.restartPending
    ensures var t := Apply(s, Deadline(k, env));
            && t.procs == s.procs && Attempting(t, k) && t.handlers[k].l.responseEnded
            && t.handlers[k].l.headers == [ErrorStatusForCategory(env.category)]
            && var u := Apply(t, Close(k, closing));
            && |u.procs| == |s.procs| && Serves(u, k)
            && EndedWith(u.handlers[k].l, [ErrorStatusForCategory(env.category)])
  {
    var t := Apply(s, Deadline(k, env));
    DeadlineIsNoted(s, k, env);
    CloseEnds(t, k, closing);
  }

  lemma {:induction false} DeadlineIsNoted(s: System, k: nat, env: Env)
    requires Attempting(s, k) && LocalsOk(s.handlers[k].l) && !s.handlers[k].l.detached && MayAccept(s.handlers[k].l)
    ensures var l := s.handlers[k].l;
            var t := Apply(s, Deadline(k, env));
            && t.procs == s.procs && t.closing == s.closing && |t.handlers| == |s.handlers|
            && Attempting(t, k) && LocalsOk(t.handlers[k].l)
            && var m := t.handlers[k].l;
            && m.responseEnded && m.headers == [ErrorStatusForCategory(env.category)] && m.deadlineTerminated
            && m.attempt.value.restartPending == l.attempt.value.restartPending
            && !m.firstByteSent && m.clientGone == l.clientGone
  {
    OpenHasNoStatus(s.handlers[k].l);
  }

  /** A disconnect ends the response without a status, and a second one does nothing. */
  lemma {:induction false} DisconnectDecides(s: System, k: nat)
    requires Serves(s, k) && !s.handlers[k].l.detached
    ensures var t := Apply(s, ClientGone(k));
            && t.procs == s.procs && Serves(t, k) && t.handlers[k].l.clientGone
            && t.handlers[k].l.headers == s.handlers[k].l.headers
            && (!s.handlers[k].l.clientGone ==> t.handlers[k].l.responseEnded)
            && Apply(t, ClientGone(k)) == t
  {
  }

  // ── Once a first byte was accepted, or the response is over ───────────────

  /** The timeout, the audio fallback and the deadline are off once a first byte was accepted;
      the deadline also once the client is gone or the response has ended. */
  lemma {:induction false} FirstByteDisarms(s: System, k: nat, e: Event)
    requires Serves(s, k)
    requires || (s.handlers[k].l.firstByteSent && (e == Event.FirstByteTimeout(k) || e == AudioEvidence(k)))
             || (e.Deadline? && e.k == k
                 && (s.handlers[k].l.firstByteSent || s.handlers[k].l.clientGone || s.handlers[k].l.responseEnded))
    ensures Apply(s, e) == s
  {
  }

  /** The teardown disarms the timers of an open response and its client's listeners, and
      leaves the response open for the close of its process. */
  lemma {:induction false} DeleteDisarms(s: System, k: nat, e: Event)
    requires Serves(s, k) && !s.handlers[k].l.responseEnded
    requires e == Event.FirstByteTimeout(k) || e == ClientGone(k) || (e.Deadline? && e.k == k)
    ensures var t := Apply(s, Delete);
            && Apply(t, e) == t && Serves(t, k) && t.procs == s.procs
            && !t.handlers[k].l.responseEnded && t.handlers[k].l.headers == s.handlers[k].l.headers
  {
  }

  ghost predicate Delivering(s: System, k: nat) {
    Serves(s, k) &&
    var l := s.handlers[k].l;
    && l.firstByteSent && l.headers == [200] && !l.responseEnded && !l.clientGone
    && l.attempt.Some? && l.attempt.value.phase == Streaming && l.attempt.value.sawData && l.retry.None?
  }

  predicate Stops(e: Event, k: nat) {
    e == ProcError(k) || e == ClientGone(k) || e == Delete || (e.Close? && e.k == k)
  }

  lemma {:induction false} StepDelivers(s: System, e: Event, k: nat)
    requires Delivering(s, k) && !Stops(e, k)
    ensures Delivering(Apply(s, e), k)
  {
    if e.Get? {
    } else if e.k == k {
    } else {
      OthersStay(s, e, k);
    }
  }

  /** A stream that delivers goes on, through timers, exits and newer GETs, until its process
      closes or fails, its client goes or the session is torn down. */
  lemma {:induction false} DeliveryGoesOn(s: System, events: seq<Event>, k: nat)
    requires Delivering(s, k) && forall i :: 0 <= i < |events| ==> !Stops(events[i], k)
    ensures Delivering(Exec(s, events), k)
    decreases |events|
  {
    if events == [] {
    } else {
      StepDelivers(s, events[0], k);
      DeliveryGoesOn(Apply(s, events[0]), events[1..], k);
    }
  }

  /** And it delivers from the moment its first data is accepted. */
  lemma {:induction false} DeliveryBegins(s: System, k: nat)
    requires Attempting(s, k) && LocalsOk(s.handlers[k].l) && MayAccept(s.handlers[k].l)
    ensures Delivering(Apply(s, FirstData(k)), k)
  {
    FirstDataDecides(s, k);
  }
}
