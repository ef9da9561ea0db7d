/** apps/api/src/routes/recordings.ts and recordings-preview-state.ts: the closure
    variables of one GET of a preview stream, and what its event handlers do to them.

    Signals sent to FFmpeg are not modelled: an attempt may exit at any moment anyway.
    Statuses are the explicit ones; bytes piped raw to the response are not. */
module PreviewHandler {
  import opened Common

  // ── recordings-preview-state.ts ───────────────────────────────────────────

  datatype Phase = WaitingFirstByte | Streaming | Terminal

  predicate ShouldAcceptFirstByte(
    phase: Phase, timedOut: bool, procExited: bool, clientGone: bool, responseEnded: bool)
  {
    phase == WaitingFirstByte && !timedOut && !procExited && !clientGone && !responseEnded
  }

  /** The failure categories with a status of their own; every other one answers 502. */
  datatype Category =
    | NvrBandwidthOrSessionLimit | NvrOfflineOrTimeout | FirstByteTimeout | AuthFailed
    | RtspAuthFailed | RtspOpenTimeout | RtspOpenedNoPackets | VideoNoKeyframe | MuxerNoOutput
    | OutputPipeDrainRace | StartupBudgetExceeded | EncodeFailed
    | StreamEndedNoOutput | OtherCategory(name: string)

  function ErrorStatusForCategory(category: Category): (status: int)
    ensures status == 401 || status == 500 || 502 <= status <= 504
  {
    match category
    case NvrBandwidthOrSessionLimit => 503
    case NvrOfflineOrTimeout => 504
    case FirstByteTimeout => 504
    case AuthFailed => 401
    case RtspAuthFailed => 401
    case RtspOpenTimeout => 504
    case RtspOpenedNoPackets => 504
    case VideoNoKeyframe => 504
    case MuxerNoOutput => 504
    case OutputPipeDrainRace => 504
    case StartupBudgetExceeded => 504
    case EncodeFailed => 500
    case _ => 502
  }

  /** What each status tells: credentials, the encoder, the recorder's capacity, something
      unclassified, or else a timeout. */
  lemma {:induction false} StatusMeans(category: Category)
    ensures var status := ErrorStatusForCategory(category);
            && (status == 401 <==> category == AuthFailed || category == RtspAuthFailed)
            && (status == 500 <==> category == EncodeFailed)
            && (status == 502 <==> category == StreamEndedNoOutput || category.OtherCategory?)
            && (status == 503 <==> category == NvrBandwidthOrSessionLimit)
  {
  }

  predicate IsCancellation(clientGone: bool, sessionAlive: bool) {
    clientGone || !sessionAlive
  }

  // ── The handler's variables; only a start counts a spawn ──────────────────

  /** One FFmpeg attempt; `proc` is its entry in the registry. `restartPending` also
      tells that the audio fallback was tried, which the source sets together. */
  datatype Attempt = Attempt(
    proc: nat, index: nat, videoOnly: bool, phase: Phase, timedOut: bool, exited: bool, sawData: bool,
    restartPending: bool)

  /** `headers` lists the explicit status lines written. Bookkeeping beside the source's
      variables: `spawned` and `restarts` count, `startedVideoOnly` keeps the first value
      of `videoOnly`. `detached` tells that the session's teardown removed the timers and
      the client listeners. */
  datatype Locals = Locals(
    chain: nat, videoOnly: bool, headers: seq<int>, firstByteSent: bool, clientGone: bool, responseEnded: bool,
    deadlineTerminated: bool, detached: bool, attempt: Option<Attempt>, retry: Option<nat>,
    startedVideoOnly: bool, spawned: nat, restarts: nat)

  /** What the environment decides at a step: whether the stderr shows an audio problem,
      whether the failure's category stops the chain, whether the startup budget is spent,
      and the category reported. */
  datatype Env = Env(audio: bool, stops: bool, late: bool, category: Category)

  function FreshLocals(chain: nat, videoOnly: bool): Locals {
    Locals(chain, videoOnly, [], false, false, false, false, false, None, None, videoOnly, 0, 0)
  }

  function SendHeadersOnce(l: Locals): (r: Locals)
    ensures r.spawned == l.spawned
  {
    if l.headers != [] then l else l.(headers := [200])
  }

  function EndWithError(l: Locals, category: Category): (r: Locals)
    ensures r == l.(headers := r.headers)
  {
    if l.headers != [] then l else l.(headers := [ErrorStatusForCategory(category)])
  }

  function Finish(l: Locals): (r: Locals)
    ensures r == l.(headers := r.headers, responseEnded := r.responseEnded)
  {
    if l.responseEnded then l
    else if l.clientGone then l.(responseEnded := true)
    else EndWithError(l.(responseEnded := true), StreamEndedNoOutput)
  }

  function WithPhase(l: Locals, phase: Phase): (r: Locals)
    ensures r.spawned == l.spawned
  {
    if l.attempt.Some? then l.(attempt := Some(l.attempt.value.(phase := phase))) else l
  }

  /** `startAttempt`: refuses when the budget is spent, otherwise spawns as `proc`. */
  predicate Refuses(l: Locals, env: Env) {
    env.late && !l.firstByteSent
  }

  function StartAttempt(l: Locals, proc: nat, index: nat, restart: bool, env: Env): (r: Locals)
    ensures r.spawned == l.spawned + (if Refuses(l, env) then 0 else 1)
  {
    if Refuses(l, env) then Finish(EndWithError(l, env.category))
    else l.(
      spawned := l.spawned + 1,
      restarts := if restart then l.restarts + 1 else l.restarts,
      attempt := Some(Attempt(proc, index, restart || l.videoOnly, WaitingFirstByte, false, false, false, false)))
  }

  function OnFirstData(l: Locals): (r: Locals)
    requires l.attempt.Some?
    ensures r.spawned == l.spawned
  {
    var a := l.attempt.value;
    var l1 := l.(attempt := Some(a.(sawData := true)));
    if a.sawData then l
    else if ShouldAcceptFirstByte(a.phase, a.timedOut, a.exited, l.clientGone, l.responseEnded) then
      SendHeadersOnce(WithPhase(l1, Streaming)).(firstByteSent := true)
    else l1
  }

  function OnFirstByteTimeout(l: Locals): (r: Locals)
    requires l.attempt.Some?
    ensures r.spawned == l.spawned
  {
    var a := l.attempt.value;
    if l.firstByteSent || a.phase != WaitingFirstByte then l
    else l.(attempt := Some(a.(timedOut := true, phase := Terminal)))
  }

  /** The stderr shows an audio problem while the attempt runs. The policy never restarts
      an attempt that is video-only, has sent a byte or was restarted already. */
  function OnAudioEvidence(l: Locals): (r: Locals)
    requires l.attempt.Some?
    ensures r.spawned == l.spawned
  {
    var a := l.attempt.value;
    if a.videoOnly || l.firstByteSent || a.restartPending then l
    else l.(videoOnly := true, attempt := Some(a.(restartPending := true, phase := Terminal)))
  }

  function OnExit(l: Locals): (r: Locals)
    requires l.attempt.Some?
    ensures r.spawned == l.spawned
  {
    var a := l.attempt.value;
    l.(attempt := Some(a.(exited := true, phase := if a.phase == WaitingFirstByte then Terminal else a.phase)))
  }

  function OnProcError(l: Locals): (r: Locals)
    ensures r.spawned == l.spawned
  {
    Finish(WithPhase(l, Terminal))
  }

  function OnClientGone(l: Locals): (r: Locals)
    ensures r.spawned == l.spawned
  {
    if l.clientGone then l else Finish(WithPhase(l.(clientGone := true), Terminal))
  }

  function OnDeadline(l: Locals, env: Env): (r: Locals)
    ensures r.spawned == l.spawned
  {
    if l.firstByteSent || l.clientGone || l.responseEnded then l
    else Finish(EndWithError(WithPhase(l.(deadlineTerminated := true), Terminal), env.category))
  }

  /** What closing the attempt asks for: a restart of the same index without audio, or
      nothing more now. */
  datatype CloseStep = Restart(index: nat) | Wait

  /** A close without a first byte: the next attempt is armed, or the response ends, with
      an error unless nobody waits for one. */
  function OnFailure(l: Locals, index: nat, sessionAlive: bool, env: Env): (r: Locals)
    ensures r.spawned == l.spawned
  {
    if index + 1 < l.chain && !env.stops && !l.clientGone then l.(retry := Some(index + 1))
    else if IsCancellation(l.clientGone, sessionAlive) then Finish(l)
    else Finish(EndWithError(l, env.category))
  }

  function OnClose(l: Locals, mayContinue: bool, sessionAlive: bool, env: Env): (r: (Locals, CloseStep))
    requires l.attempt.Some?
    ensures r.0.spawned == l.spawned
  {
    var a := l.attempt.value;
    var l0 := l.(attempt := None);
    if a.restartPending then
      if mayContinue then (l0, Restart(a.index)) else (Finish(l0), Wait)
    else if l.deadlineTerminated then (Finish(l0), Wait)
    else if !l.firstByteSent && !a.videoOnly && mayContinue && env.audio then
      (l0.(videoOnly := true), Restart(a.index))
    else if l.firstByteSent then (Finish(l0), Wait)
    else (OnFailure(l0, a.index, sessionAlive, env), Wait)
  }

  /** The same variables as the source keeps them, changed in place by its handlers. */
  class StreamHandler {
    const chain: nat
    var videoOnly: bool
    var headers: seq<int>
    var firstByteSent: bool
    var clientGone: bool
    var responseEnded: bool
    var deadlineTerminated: bool
    var detached: bool
    var attempt: Option<Attempt>
    var retry: Option<nat>
    const startedVideoOnly: bool
    var spawned: nat
    var restarts: nat

    function View(): Locals
      reads this
    {
      Locals(chain, videoOnly, headers, firstByteSent, clientGone, responseEnded, deadlineTerminated, detached,
             attempt, retry, startedVideoOnly, spawned, restarts)
    }

    constructor (chain: nat, videoOnly: bool)
      ensures View() == FreshLocals(chain, videoOnly)
    {
      this.chain, this.videoOnly, startedVideoOnly := chain, videoOnly, videoOnly;
      headers, firstByteSent, clientGone, responseEnded := [], false, false, false;
      deadlineTerminated, detached, attempt, retry, spawned, restarts := false, false, None, None, 0, 0;
    }

    method WriteHead(status: int)
      modifies this`headers
      ensures headers == if old(headers) != [] then old(headers) else [status]
    {
      if headers == [] {
        headers := [status];
      }
    }

    method End()
      modifies this`headers, this`responseEnded
      ensures View() == Finish(old(View()))
    {
      if responseEnded {
        return;
      }
      responseEnded := true;
      if headers == [] && !clientGone {
        WriteHead(ErrorStatusForCategory(StreamEndedNoOutput));
      }
    }

    method EnterPhase(phase: Phase)
      modifies this`attempt
      ensures View() == WithPhase(old(View()), phase)
    {
      if attempt.Some? {
        attempt := Some(attempt.value.(phase := phase));
      }
    }

    method Start(proc: nat, index: nat, restart: bool, env: Env) returns (didSpawn: bool)
      modifies this
      ensures View() == StartAttempt(old(View()), proc, index, restart, env)
      ensures didSpawn == !Refuses(old(View()), env)
    {
      if env.late && !firstByteSent {
        WriteHead(ErrorStatusForCategory(env.category));
        End();
        return false;
      }
      attempt := Some(Attempt(proc, index, restart || videoOnly, WaitingFirstByte, false, false, false, false));
      spawned := spawned + 1;
      if restart {
        restarts := restarts + 1;
      }
      didSpawn := true;
    }

    method FirstData()
      requires attempt.Some?
      modifies this
      ensures View() == OnFirstData(old(View()))
    {
      var a := attempt.value;
      if a.sawData {
        return;
      }
      attempt := Some(a.(sawData := true));
      if !ShouldAcceptFirstByte(a.phase, a.timedOut, a.exited, clientGone, responseEnded) {
        return;
      }
      EnterPhase(Streaming);
      WriteHead(200);
      firstByteSent := true;
    }

    method ClientGone()
      modifies this
      ensures View() == OnClientGone(old(View()))
    {
      if clientGone {
        return;
      }
      clientGone := true;
      EnterPhase(Terminal);
      End();
    }

    method Deadline(env: Env)
      modifies this
      ensures View() == OnDeadline(old(View()), env)
    {
      if firstByteSent || clientGone || responseEnded {
        return;
      }
      deadlineTerminated := true;
      EnterPhase(Terminal);
      WriteHead(ErrorStatusForCategory(env.category));
      End();
    }

    method Failure(index: nat, sessionAlive: bool, env: Env)
      modifies this
      ensures View() == OnFailure(old(View()), index, sessionAlive, env)
    {
      if index + 1 < chain && !env.stops && !clientGone {
        retry := Some(index + 1);
        return;
      }
      if IsCancellation(clientGone, sessionAlive) {
        End();
        return;
      }
      WriteHead(ErrorStatusForCategory(env.category));
      End();
    }

    method Close(mayContinue: bool, sessionAlive: bool, env: Env) returns (step: CloseStep)
      requires attempt.Some?
      modifies this
      ensures (View(), step) == OnClose(old(View()), mayContinue, sessionAlive, env)
    {
      var a := attempt.value;
      attempt := None;
      step := Wait;
      if a.restartPending {
        if mayContinue {
          return Restart(a.index);
        }
        End();
        return;
      }
      if deadlineTerminated {
        End();
        return;
      }
      if !firstByteSent && !a.videoOnly && mayContinue && env.audio {
        videoOnly := true;
        return Restart(a.index);
      }
      if firstByteSent {
        End();
      } else {
        Failure(a.index, sessionAlive, env);
      }
    }
  }

  // ── What every handler keeps, step by step ────────────────────────────────

  /** One status line at most; a 200 exactly when a first byte was accepted; a response
      that ended for a client still there has its status line. */
  predicate ResponseOk(l: Locals) {
    && |l.headers| <= 1
    && (l.firstByteSent <==> l.headers == [200])
    && (l.headers != [] ==> l.firstByteSent || l.responseEnded)
    && (l.responseEnded && !l.clientGone ==> l.headers != [])
  }

  predicate AttemptOk(l: Locals, a: Attempt) {
    && a.index < l.chain && l.retry.None?
    && l.spawned == a.index + 1 + l.restarts
    && (l.restarts == 1 || l.startedVideoOnly ==> a.videoOnly)
    && (a.restartPending ==> !a.videoOnly && l.videoOnly && a.phase == Terminal && !l.firstByteSent)
    && (a.phase == WaitingFirstByte ==> !l.firstByteSent)
  }

  /** The index only advances and the one restart makes the session video-only for good. */
  predicate ChainOk(l: Locals) {
    && l.restarts <= (if l.startedVideoOnly then 0 else 1)
    && (l.restarts == 1 || l.startedVideoOnly ==> l.videoOnly)
    && l.spawned <= l.chain + l.restarts
    && (l.attempt.Some? ==> AttemptOk(l, l.attempt.value))
    && (l.retry.Some? ==> l.retry.value < l.chain && l.spawned == l.retry.value + l.restarts && !l.firstByteSent)
  }

  predicate LocalsOk(l: Locals) {
    ResponseOk(l) && ChainOk(l)
  }

  lemma {:induction false} StartKeepsLocals(l: Locals, proc: nat, index: nat, restart: bool, env: Env)
    requires LocalsOk(l) && l.attempt.None? && l.retry.None? && index < l.chain && !l.firstByteSent
    requires l.spawned == index + l.restarts + (if restart then 1 else 0)
    requires restart ==> l.restarts == 0 && l.videoOnly && !l.startedVideoOnly
    ensures LocalsOk(StartAttempt(l, proc, index, restart, env))
  {
  }

  lemma {:induction false} EndKeepsChain(l: Locals, category: Category)
    requires ChainOk(l)
    ensures ChainOk(Finish(l)) && ChainOk(Finish(EndWithError(l, category)))
  {
  }

  lemma {:induction false} EndKeepsResponse(l: Locals, category: Category)
    requires ResponseOk(l)
    ensures ResponseOk(Finish(l)) && ResponseOk(Finish(EndWithError(l, category)))
  {
    if l.headers == [] {
      var status := ErrorStatusForCategory(category);
      assert [status] != [200];
    }
  }

  /** Ending the response, with or without an error of its own, touches nothing else. */
  lemma {:induction false} EndKeepsLocals(l: Locals, category: Category)
    requires LocalsOk(l)
    ensures LocalsOk(Finish(l)) && LocalsOk(Finish(EndWithError(l, category)))
  {
    EndKeepsChain(l, category);
    EndKeepsResponse(l, category);
  }

  lemma {:induction false} TerminalKeepsLocals(l: Locals)
    requires LocalsOk(l)
    ensures LocalsOk(WithPhase(l, Terminal))
  {
  }

  lemma {:induction false} FirstDataKeepsLocals(l: Locals)
    requires LocalsOk(l) && l.attempt.Some?
    ensures LocalsOk(OnFirstData(l))
  {
  }

  lemma {:induction false} TimeoutKeepsLocals(l: Locals)
    requires LocalsOk(l) && l.attempt.Some?
    ensures LocalsOk(OnFirstByteTimeout(l))
  {
  }

  lemma {:induction false} AudioEvidenceKeepsLocals(l: Locals)
    requires LocalsOk(l) && l.attempt.Some?
    ensures LocalsOk(OnAudioEvidence(l))
  {
  }

  lemma {:induction false} ExitKeepsLocals(l: Locals)
    requires LocalsOk(l) && l.attempt.Some?
    ensures LocalsOk(OnExit(l))
  {
  }

  lemma {:induction false} ProcErrorKeepsLocals(l: Locals)
    requires LocalsOk(l)
    ensures LocalsOk(OnProcError(l))
  {
    TerminalKeepsLocals(l);
    EndKeepsLocals(WithPhase(l, Terminal), StreamEndedNoOutput);
  }

  lemma {:induction false} ClientGoneKeepsLocals(l: Locals)
    requires LocalsOk(l)
    ensures LocalsOk(OnClientGone(l))
  {
    if !l.clientGone {
      TerminalKeepsLocals(l.(clientGone := true));
      EndKeepsLocals(WithPhase(l.(clientGone := true), Terminal), StreamEndedNoOutput);
    }
  }

  lemma {:induction false} DeadlineKeepsLocals(l: Locals, env: Env)
    requires LocalsOk(l)
    ensures LocalsOk(OnDeadline(l, env))
  {
    var ended := l.(deadlineTerminated := true);
    TerminalKeepsLocals(ended);
    EndKeepsLocals(WithPhase(ended, Terminal), env.category);
  }

  lemma {:induction false} FailureKeepsLocals(l: Locals, index: nat, sessionAlive: bool, env: Env)
    requires LocalsOk(l) && l.attempt.None? && l.retry.None? && !l.firstByteSent
    requires l.spawned == index + 1 + l.restarts
    ensures var t := OnFailure(l, index, sessionAlive, env);
            LocalsOk(t) && t.attempt.None? && t.chain == l.chain
  {
    EndKeepsLocals(l, env.category);
  }

  /** After a close the handler is idle, waits for its retry timer, or may restart the
      same index for the first and last time. */
  lemma {:induction false} CloseKeepsLocals(l: Locals, mayContinue: bool, sessionAlive: bool, env: Env)
    requires LocalsOk(l) && l.attempt.Some?
    ensures var (t, step) := OnClose(l, mayContinue, sessionAlive, env);
            && LocalsOk(t) && t.attempt.None? && t.chain == l.chain
            && (step.Restart? ==>
                  && mayContinue && t.retry.None? && step.index < t.chain && !t.firstByteSent
                  && t.spawned == step.index + 1 && t.restarts == 0 && t.videoOnly && !t.startedVideoOnly)
  {
    var a, idle := l.attempt.value, l.(attempt := None);
    EndKeepsLocals(idle, env.category);
    if !l.firstByteSent {
      FailureKeepsLocals(idle, a.index, sessionAlive, env);
    }
  }
}
