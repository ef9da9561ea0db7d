/** apps/api/src/routes/recordings.ts, recordings-preview-state.ts and
    preview-process-registry.ts: who owns the stream of one preview session.

    Every GET advances the session's stream generation and takes over from the handlers
    before it. The system below puts any number of GETs, process events, timers, client
    disconnects and the DELETE of one session in any order. */
module PreviewStream {
  import opened Common
  import opened PreviewHandler

  // ── The process registry and the takeover decision ────────────────────────

  /** An attempt ever registered: its GET, and whether its exit and its close were
      observed. Signals do not show here. */
  datatype Proc = Proc(owner: nat, exited: bool, closed: bool)

  function AliveCount(procs: seq<Proc>): nat {
    if procs == [] then 0
    else AliveCount(procs[..|procs| - 1]) + (if procs[|procs| - 1].exited then 0 else 1)
  }

  predicate NoneAlive(procs: seq<Proc>) {
    forall p :: 0 <= p < |procs| ==> procs[p].exited
  }

  lemma {:induction false} NoneAliveIsZero(procs: seq<Proc>)
    ensures AliveCount(procs) == 0 <==> NoneAlive(procs)
  {
    if procs == [] {
    } else {
      NoneAliveIsZero(procs[..|procs| - 1]);
      assert NoneAlive(procs) ==> NoneAlive(procs[..|procs| - 1]);
      assert NoneAlive(procs[..|procs| - 1]) && procs[|procs| - 1].exited ==> NoneAlive(procs);
    }
  }

  lemma {:induction false} OneAliveIsOne(procs: seq<Proc>)
    requires forall p, q :: 0 <= p < q < |procs| ==> procs[p].exited || procs[q].exited
    ensures AliveCount(procs) <= 1
  {
    if procs == [] {
    } else {
      var front := procs[..|procs| - 1];
      OneAliveIsOne(front);
      if !procs[|procs| - 1].exited {
        assert NoneAlive(front);
        NoneAliveIsZero(front);
      }
    }
  }

  class PreviewProcessRegistry {
    var procs: seq<Proc>

    constructor ()
      ensures procs == []
    {
      procs := [];
    }

    method Register(owner: nat) returns (id: nat)
      modifies this
      ensures id == |old(procs)| && procs == old(procs) + [Proc(owner, false, false)]
    {
      id := |procs|;
      procs := procs + [Proc(owner, false, false)];
    }

    /** An attempt that is not known is ignored. */
    method MarkExited(id: nat)
      modifies this
      ensures procs == if id < |old(procs)| then old(procs)[id := old(procs)[id].(exited := true)] else old(procs)
    {
      if id >= |procs| || procs[id].exited {
        return;
      }
      procs := procs[id := procs[id].(exited := true)];
    }

    method Unregister(id: nat)
      modifies this
      ensures procs == if id < |old(procs)| then old(procs)[id := old(procs)[id].(exited := true, closed := true)]
                       else old(procs)
    {
      if id >= |procs| {
        return;
      }
      if !procs[id].exited {
        MarkExited(id);
      }
      procs := procs[id := procs[id].(closed := true)];
    }

    method Alive() returns (n: nat)
      ensures n == AliveCount(procs)
    {
      n := 0;
      for i := 0 to |procs|
        invariant n == AliveCount(procs[..i])
      {
        assert procs[..i + 1][..i] == procs[..i];
        if !procs[i].exited {
          n := n + 1;
        }
      }
      assert procs[..|procs|] == procs;
    }

    /** `resolveStreamTakeover` up to its await: nothing alive, nothing to wait for. */
    method BeginTakeover() returns (proceed: bool)
      ensures proceed <==> NoneAlive(procs)
    {
      var n := Alive();
      NoneAliveIsZero(procs);
      proceed := n == 0;
    }

    /** `resolveStreamTakeover` once the bounded wait is over. */
    method EndTakeover(reaped: bool) returns (proceed: bool)
      ensures proceed <==> reaped && NoneAlive(procs)
    {
      var n := Alive();
      NoneAliveIsZero(procs);
      proceed := reaped && n == 0;
    }
  }

  // ── The session and its GETs ──────────────────────────────────────────────

  datatype Handler = Taking | Taken(proceed: bool) | Refused(status: int) | Serving(l: Locals)

  /** `handlers` has one entry per GET accepted so far, so its length is the session's
      `streamGeneration`; `closing` also stands for the session having left the map. */
  datatype System = System(handlers: seq<Handler>, procs: seq<Proc>, closing: bool)

  const START := System([], [], false)

  datatype Event =
    | Get
    | TakeoverEnds(k: nat, reaped: bool)
    | Resume(k: nat, lease: bool, chain: nat, videoOnly: bool, env: Env)
    | FirstData(k: nat)
    | FirstByteTimeout(k: nat)
    | AudioEvidence(k: nat)
    | Exit(k: nat)
    | ProcError(k: nat)
    | Close(k: nat, env: Env)
    | RetryFires(k: nat, env: Env)
    | ClientGone(k: nat)
    | Deadline(k: nat, env: Env)
    | Delete

  predicate Owner(s: System, k: nat) {
    k + 1 == |s.handlers| && !s.closing
  }

  /** Only the owner of the stream whose client is still there advances or restarts. */
  predicate CanContinue(s: System, k: nat, l: Locals) {
    !l.clientGone && Owner(s, k)
  }

  function Put(s: System, k: nat, l: Locals): System
    requires k < |s.handlers|
  {
    s.(handlers := s.handlers[k := Serving(l)])
  }

  function Spawn(s: System, k: nat, l: Locals, index: nat, restart: bool, env: Env): System
    requires k < |s.handlers|
  {
    var s1 := Put(s, k, StartAttempt(l, |s.procs|, index, restart, env));
    if Refuses(l, env) then s1 else s1.(procs := s.procs + [Proc(k, false, false)])
  }

  /** The handler after its takeover: everything up to the first spawn is one stretch
      without an await. */
  function Serve(s: System, k: nat, e: Event): System
    requires k < |s.handlers| && s.handlers[k].Taken? && e.Resume?
  {
    if k + 1 != |s.handlers| then s.(handlers := s.handlers[k := Refused(409)])
    else if s.closing then s.(handlers := s.handlers[k := Refused(410)])
    else if !s.handlers[k].proceed then s.(handlers := s.handlers[k := Refused(503)])
    else if !e.lease then s.(handlers := s.handlers[k := Refused(409)])
    else
      var l := FreshLocals(e.chain, e.videoOnly);
      if e.chain == 0 then Put(s, k, Finish(EndWithError(l, OtherCategory("RTSP_PLAYBACK_URI_REJECTED"))))
      else Spawn(s, k, l, 0, false, e.env)
  }

  function CloseProc(s: System, p: nat): System
    requires p < |s.procs|
  {
    s.(procs := s.procs[p := s.procs[p].(exited := true, closed := true)])
  }

  function Closed(s: System, k: nat, l: Locals, env: Env): System
    requires k < |s.handlers| && l.attempt.Some? && l.attempt.value.proc < |s.procs|
  {
    var (l1, step) := OnClose(l, CanContinue(s, k, l), !s.closing, env);
    var s1 := CloseProc(s, l.attempt.value.proc);
    match step
    case Wait => Put(s1, k, l1)
    case Restart(index) => Spawn(s1, k, l1, index, true, env)
  }

  function Retry(s: System, k: nat, l: Locals, env: Env): System
    requires k < |s.handlers| && l.retry.Some?
  {
    var l1 := l.(retry := None);
    if CanContinue(s, k, l) then Spawn(s, k, l1, l.retry.value, false, env) else Put(s, k, Finish(l1))
  }

  /** The teardown runs the disposers of the responses that have not ended: timers and
      client listeners go, the attempt takes no more data. */
  function Detach(h: Handler): Handler {
    if h.Serving? && !h.l.responseEnded then Serving(WithPhase(h.l, Terminal).(detached := true)) else h
  }

  predicate Serves(s: System, k: nat) {
    k < |s.handlers| && s.handlers[k].Serving?
  }

  predicate Attempting(s: System, k: nat) {
    Serves(s, k) && s.handlers[k].l.attempt.Some? && s.handlers[k].l.attempt.value.proc < |s.procs|
  }

  /** One step; an event that cannot happen in `s` changes nothing. */
  function Apply(s: System, e: Event): System {
    match e
    case Get =>
      if s.closing then s
      else s.(handlers := s.handlers + [if NoneAlive(s.procs) then Taken(true) else Taking])
    case TakeoverEnds(k, reaped) =>
      if k < |s.handlers| && s.handlers[k].Taking?
      then s.(handlers := s.handlers[k := Taken(reaped && NoneAlive(s.procs))]) else s
    case Resume(k, _, _, _, _) => if k < |s.handlers| && s.handlers[k].Taken? then Serve(s, k, e) else s
    case FirstData(k) => if Attempting(s, k) then Put(s, k, OnFirstData(s.handlers[k].l)) else s
    case FirstByteTimeout(k) =>
      if Attempting(s, k) && !s.handlers[k].l.detached then Put(s, k, OnFirstByteTimeout(s.handlers[k].l)) else s
    case AudioEvidence(k) => if Attempting(s, k) then Put(s, k, OnAudioEvidence(s.handlers[k].l)) else s
    case Exit(k) =>
      if Attempting(s, k) then
        var p := s.handlers[k].l.attempt.value.proc;
        Put(s.(procs := s.procs[p := s.procs[p].(exited := true)]), k, OnExit(s.handlers[k].l))
      else s
    case ProcError(k) => if Attempting(s, k) then Put(s, k, OnProcError(s.handlers[k].l)) else s
    case Close(k, env) => if Attempting(s, k) then Closed(s, k, s.handlers[k].l, env) else s
    case RetryFires(k, env) =>
      if Serves(s, k) && s.handlers[k].l.retry.Some? then Retry(s, k, s.handlers[k].l, env) else s
    case ClientGone(k) =>
      if Serves(s, k) && !s.handlers[k].l.detached then Put(s, k, OnClientGone(s.handlers[k].l)) else s
    case Deadline(k, env) =>
      if Serves(s, k) && !s.handlers[k].l.detached then Put(s, k, OnDeadline(s.handlers[k].l, env)) else s
    case Delete =>
      s.(closing := true,
         handlers := seq(|s.handlers|, i requires 0 <= i < |s.handlers| => Detach(s.handlers[i])))
  }

  function Exec(s: System, events: seq<Event>): System
    decreases |events|
  {
    if events == [] then s else Exec(Apply(s, events[0]), events[1..])
  }

  // ── What every step keeps ─────────────────────────────────────────────────

  /** The attempt a handler is on. */
  predicate On(h: Handler, p: nat) {
    h.Serving? && h.l.attempt.Some? && h.l.attempt.value.proc == p
  }

  /** A process that is still there is the current attempt of the GET that spawned it. */
  ghost predicate Owned(s: System) {
    forall p :: 0 <= p < |s.procs| && !s.procs[p].closed ==>
      s.procs[p].owner < |s.handlers| && On(s.handlers[s.procs[p].owner], p)
  }

  ghost predicate ExitBeforeClose(s: System) {
    forall p :: 0 <= p < |s.procs| && s.procs[p].closed ==> s.procs[p].exited
  }

  ghost predicate AtMostOne(s: System) {
    forall p, q :: 0 <= p < q < |s.procs| ==> s.procs[p].exited || s.procs[q].exited
  }

  /** The newest GET: cleared to spawn only when nothing is alive, and once it serves,
      whatever is alive is its own. */
  ghost predicate NewestGet(s: System) {
    s.handlers != [] ==>
      match s.handlers[|s.handlers| - 1]
      case Taken(proceed) => proceed ==> NoneAlive(s.procs)
      case Serving(_) => forall p :: 0 <= p < |s.procs| && !s.procs[p].exited ==> s.procs[p].owner == |s.handlers| - 1
      case _ => true
  }

  ghost predicate LocalsKept(s: System) {
    forall k :: 0 <= k < |s.handlers| && s.handlers[k].Serving? ==> LocalsOk(s.handlers[k].l)
  }

  ghost predicate Registry(s: System) {
    Owned(s) && ExitBeforeClose(s) && AtMostOne(s) && NewestGet(s)
  }

  /** Nothing changes for the registry when a handler keeps its attempt's process. */
  lemma {:induction false} PutKeepsRegistry(s: System, k: nat, l: Locals)
    requires Registry(s) && Serves(s, k)
    requires forall p :: On(s.handlers[k], p) ==> On(Serving(l), p)
    ensures Registry(Put(s, k, l))
  {
  }

  /** A spawn by the newest GET, idle and with nothing alive. */
  lemma {:induction false} SpawnKeepsRegistry(s: System, k: nat, l: Locals, index: nat, restart: bool, env: Env)
    requires Owned(s) && ExitBeforeClose(s) && k + 1 == |s.handlers|
    requires NoneAlive(s.procs) && forall p :: 0 <= p < |s.procs| ==> s.procs[p].owner != k || s.procs[p].closed
    ensures Registry(Spawn(s, k, l, index, restart, env))
  {
  }

  lemma {:induction false} GetKeepsRegistry(s: System, e: Event)
    requires Registry(s) && (e.Get? || e.TakeoverEnds?)
    ensures Registry(Apply(s, e))
  {
  }

  lemma {:induction false} ServeKeepsRegistry(s: System, k: nat, e: Event)
    requires Registry(s) && k < |s.handlers| && s.handlers[k].Taken? && e.Resume?
    ensures Registry(Serve(s, k, e))
  {
    if k + 1 == |s.handlers| && !s.closing && s.handlers[k].proceed && e.lease && e.chain != 0 {
      SpawnKeepsRegistry(s, k, FreshLocals(e.chain, e.videoOnly), 0, false, e.env);
    }
  }

  lemma {:induction false} ExitKeepsRegistry(s: System, k: nat)
    requires Registry(s)
    ensures Registry(Apply(s, Exit(k)))
  {
  }

  /** Closing an attempt leaves its handler, if it is the newest, with nothing alive. */
  lemma {:induction false} AfterClose(s: System, k: nat, l1: Locals)
    requires Registry(s) && Attempting(s, k) && l1.attempt.None?
    ensures var s1 := Put(CloseProc(s, s.handlers[k].l.attempt.value.proc), k, l1);
            && Registry(s1)
            && (forall p :: 0 <= p < |s1.procs| ==> s1.procs[p].owner != k || s1.procs[p].closed)
            && (k + 1 == |s.handlers| ==> NoneAlive(s1.procs))
  {
  }

  lemma {:induction false} ClosedKeepsRegistry(s: System, k: nat, env: Env)
    requires Registry(s) && Attempting(s, k)
    ensures Registry(Apply(s, Close(k, env)))
  {
    var l := s.handlers[k].l;
    var (l1, step) := OnClose(l, CanContinue(s, k, l), !s.closing, env);
    AfterClose(s, k, l1);
    if step.Restart? {
      var s1 := Put(CloseProc(s, l.attempt.value.proc), k, l1);
      SpawnKeepsRegistry(s1, k, l1, step.index, true, env);
      assert Spawn(s1, k, l1, step.index, true, env) == Apply(s, Close(k, env));
    }
  }

  lemma {:induction false} RetryKeepsRegistry(s: System, k: nat, env: Env)
    requires Registry(s) && LocalsKept(s)
    ensures Registry(Apply(s, RetryFires(k, env)))
  {
    if Serves(s, k) && s.handlers[k].l.retry.Some? {
      var l := s.handlers[k].l;
      assert l.attempt.None?;
      if CanContinue(s, k, l) {
        SpawnKeepsRegistry(s, k, l.(retry := None), l.retry.value, false, env);
      } else {
        PutKeepsRegistry(s, k, Finish(l.(retry := None)));
      }
    }
  }

  lemma {:induction false} AttemptEventKeepsRegistry(s: System, e: Event)
    requires Registry(s) && (e.FirstData? || e.FirstByteTimeout? || e.AudioEvidence? || e.ProcError?)
    ensures Registry(Apply(s, e))
  {
    if Attempting(s, e.k) && Apply(s, e) != s {
      PutKeepsRegistry(s, e.k, Apply(s, e).handlers[e.k].l);
    }
  }

  lemma {:induction false} ClientEventKeepsRegistry(s: System, e: Event)
    requires Registry(s) && (e.ClientGone? || e.Deadline?)
    ensures Registry(Apply(s, e))
  {
    if Serves(s, e.k) && Apply(s, e) != s {
      PutKeepsRegistry(s, e.k, Apply(s, e).handlers[e.k].l);
    }
  }

  lemma {:induction false} DeleteKeepsRegistry(s: System)
    requires Registry(s)
    ensures Registry(Apply(s, Delete))
  {
  }

  lemma {:induction false} StepKeepsRegistry(s: System, e: Event)
    requires Registry(s) && LocalsKept(s)
    ensures Registry(Apply(s, e))
  {
    match e
    case Get => GetKeepsRegistry(s, e);
    case TakeoverEnds(_, _) => GetKeepsRegistry(s, e);
    case Resume(k, _, _, _, _) =>
      if k < |s.handlers| && s.handlers[k].Taken? {
        ServeKeepsRegistry(s, k, e);
      }
    case Exit(k) => ExitKeepsRegistry(s, k);
    case Close(k, env) =>
      if Attempting(s, k) {
        ClosedKeepsRegistry(s, k, env);
      }
    case RetryFires(k, env) => RetryKeepsRegistry(s, k, env);
    case Delete => DeleteKeepsRegistry(s);
    case ClientGone(_) => ClientEventKeepsRegistry(s, e);
    case Deadline(_, _) => ClientEventKeepsRegistry(s, e);
    case _ => AttemptEventKeepsRegistry(s, e);
  }

  lemma {:induction false} ClosedKeepsLocals(s: System, k: nat, env: Env)
    requires Attempting(s, k) && LocalsOk(s.handlers[k].l)
    ensures Apply(s, Close(k, env)).handlers[k].Serving? && LocalsOk(Apply(s, Close(k, env)).handlers[k].l)
  {
    var l := s.handlers[k].l;
    CloseKeepsLocals(l, CanContinue(s, k, l), !s.closing, env);
    var (l1, step) := OnClose(l, CanContinue(s, k, l), !s.closing, env);
    if step.Restart? {
      StartKeepsLocals(l1, |s.procs|, step.index, true, env);
    }
  }

  lemma {:induction false} RetryKeepsLocals(s: System, k: nat, env: Env)
    requires Serves(s, k) && LocalsOk(s.handlers[k].l) && s.handlers[k].l.retry.Some?
    ensures Retry(s, k, s.handlers[k].l, env).handlers[k].Serving?
    ensures LocalsOk(Retry(s, k, s.handlers[k].l, env).handlers[k].l)
  {
    var l1 := s.handlers[k].l.(retry := None);
    StartKeepsLocals(l1, |s.procs|, s.handlers[k].l.retry.value, false, env);
    EndKeepsLocals(l1, env.category);
  }

  lemma {:induction false} ServeKeepsLocals(s: System, k: nat, e: Event)
    requires k < |s.handlers| && s.handlers[k].Taken? && e.Resume?
    ensures Serve(s, k, e).handlers[k].Serving? ==> LocalsOk(Serve(s, k, e).handlers[k].l)
  {
    if e.chain != 0 {
      StartKeepsLocals(FreshLocals(e.chain, e.videoOnly), |s.procs|, 0, false, e.env);
    }
  }

  /** One handler's step: its variables stay in order. */
  lemma {:induction false} HandlerStepKeepsLocals(s: System, e: Event, k: nat)
    requires LocalsKept(s) && k < |s.handlers| && !e.Get? && !e.Delete? && e.k == k
    ensures Apply(s, e).handlers[k].Serving? ==> LocalsOk(Apply(s, e).handlers[k].l)
  {
    match e
    case Get =>
    case Delete =>
    case Close(_, env) =>
      if Attempting(s, k) {
        ClosedKeepsLocals(s, k, env);
      }
    case RetryFires(_, env) =>
      if Serves(s, k) && s.handlers[k].l.retry.Some? {
        RetryKeepsLocals(s, k, env);
      }
    case Resume(_, _, _, _, _) =>
      if s.handlers[k].Taken? {
        ServeKeepsLocals(s, k, e);
      }
    case TakeoverEnds(_, _) =>
    case Deadline(_, env) => if Serves(s, k) { DeadlineKeepsLocals(s.handlers[k].l, env); }
    case ClientGone(_) => if Serves(s, k) { ClientGoneKeepsLocals(s.handlers[k].l); }
    case ProcError(_) => if Serves(s, k) { ProcErrorKeepsLocals(s.handlers[k].l); }
    case FirstData(_) => if Attempting(s, k) { FirstDataKeepsLocals(s.handlers[k].l); }
    case FirstByteTimeout(_) => if Attempting(s, k) { TimeoutKeepsLocals(s.handlers[k].l); }
    case AudioEvidence(_) => if Attempting(s, k) { AudioEvidenceKeepsLocals(s.handlers[k].l); }
    case Exit(_) => if Attempting(s, k) { ExitKeepsLocals(s.handlers[k].l); }
  }

  /** An event of one handler leaves the others alone. */
  lemma {:induction false} OthersStay(s: System, e: Event, k: nat)
    requires k < |s.handlers| && !e.Get? && !e.Delete? && e.k != k
    ensures k < |Apply(s, e).handlers| && Apply(s, e).handlers[k] == s.handlers[k]
  {
  }

  lemma {:induction false} SameHandlers(s: System, e: Event)
    requires !e.Get?
    ensures |Apply(s, e).handlers| == |s.handlers|
  {
  }

  lemma {:induction false} DeleteKeepsLocals(s: System)
    requires LocalsKept(s)
    ensures LocalsKept(Apply(s, Delete))
  {
    forall k | 0 <= k < |s.handlers| && s.handlers[k].Serving?
      ensures LocalsOk(Detach(s.handlers[k]).l)
    {
      TerminalKeepsLocals(s.handlers[k].l);
    }
  }

  lemma {:induction false} StepKeepsLocals(s: System, e: Event)
    requires LocalsKept(s)
    ensures LocalsKept(Apply(s, e))
  {
    if e.Delete? {
      DeleteKeepsLocals(s);
    } else if !e.Get? {
      SameHandlers(s, e);
      forall k | 0 <= k < |s.handlers| && Apply(s, e).handlers[k].Serving?
        ensures LocalsOk(Apply(s, e).handlers[k].l)
      {
        if e.k == k {
          HandlerStepKeepsLocals(s, e, k);
        } else {
          OthersStay(s, e, k);
        }
      }
    }
  }

  // ── The processes a GET has spawned ───────────────────────────────────────

  function SpawnedBy(procs: seq<Proc>, k: nat): nat {
    if procs == [] then 0
    else SpawnedBy(procs[..|procs| - 1], k) + (if procs[|procs| - 1].owner == k then 1 else 0)
  }

  /** Exits and closes do not change who spawned what. */
  lemma {:induction false} SameOwners(a: seq<Proc>, b: seq<Proc>, k: nat)
    requires |a| == |b| && forall p :: 0 <= p < |a| ==> a[p].owner == b[p].owner
    ensures SpawnedBy(a, k) == SpawnedBy(b, k)
  {
    if a == [] {
    } else {
      SameOwners(a[..|a| - 1], b[..|b| - 1], k);
    }
  }

  function Spawned(h: Handler): nat {
    if h.Serving? then h.l.spawned else 0
  }

  ghost predicate SpawnsCounted(s: System) {
    && (forall k :: 0 <= k < |s.handlers| ==> SpawnedBy(s.procs, k) == Spawned(s.handlers[k]))
    && (forall p :: 0 <= p < |s.procs| ==> s.procs[p].owner < |s.handlers|)
  }

  lemma {:induction false} NoneSpawnedBy(procs: seq<Proc>, k: nat)
    requires forall p :: 0 <= p < |procs| ==> procs[p].owner != k
    ensures SpawnedBy(procs, k) == 0
  {
    if procs == [] {
    } else {
      NoneSpawnedBy(procs[..|procs| - 1], k);
    }
  }

  /** What a step may do to the processes: nothing, a note of an exit, or one spawn by a
      handler that owns the stream and counts it. */
  ghost predicate SpawnsOnce(s: System, t: System) {
    && |s.procs| <= |t.procs| <= |s.procs| + 1
    && (forall p :: 0 <= p < |s.procs| ==> t.procs[p].owner == s.procs[p].owner)
    && (|t.procs| > |s.procs| ==> Owner(s, t.procs[|s.procs|].owner))
    && |s.handlers| <= |t.handlers|
    && (forall k :: |s.handlers| <= k < |t.handlers| ==> !t.handlers[k].Serving?)
    && (forall k :: 0 <= k < |s.handlers| ==>
          Spawned(t.handlers[k]) == Spawned(s.handlers[k])
            + (if |t.procs| > |s.procs| && t.procs[|s.procs|].owner == k then 1 else 0))
  }

  lemma {:induction false} PutSpawnsNothing(s: System, t: System, k: nat, h: Handler)
    requires k < |s.handlers| && t.handlers == s.handlers[k := h] && Spawned(h) == Spawned(s.handlers[k])
    requires |t.procs| == |s.procs| && forall p :: 0 <= p < |s.procs| ==> t.procs[p].owner == s.procs[p].owner
    ensures SpawnsOnce(s, t)
  {
  }

  lemma {:induction false} SpawnCounts(
    s: System, s1: System, k: nat, l: Locals, index: nat, restart: bool, env: Env)
    requires Owner(s, k) && s1.handlers == s.handlers && l.spawned == Spawned(s.handlers[k])
    requires |s1.procs| == |s.procs| && forall p :: 0 <= p < |s.procs| ==> s1.procs[p].owner == s.procs[p].owner
    ensures SpawnsOnce(s, Spawn(s1, k, l, index, restart, env))
  {
    var t := Spawn(s1, k, l, index, restart, env);
    var spawned := if Refuses(l, env) then 0 else 1;
    assert |t.procs| == |s.procs| + spawned && t.handlers == s.handlers[k := t.handlers[k]];
    assert Spawned(t.handlers[k]) == Spawned(s.handlers[k]) + spawned;
  }

  lemma {:induction false} ClosedSpawnsOnce(s: System, k: nat, env: Env)
    requires Attempting(s, k)
    ensures SpawnsOnce(s, Apply(s, Close(k, env)))
  {
    var l := s.handlers[k].l;
    var (l1, step) := OnClose(l, CanContinue(s, k, l), !s.closing, env);
    var s1 := CloseProc(s, l.attempt.value.proc);
    match step
    case Wait => PutSpawnsNothing(s, Put(s1, k, l1), k, Serving(l1));
    case Restart(index) => SpawnCounts(s, s1, k, l1, index, true, env);
  }

  lemma {:induction false} RetrySpawnsOnce(s: System, k: nat, env: Env)
    requires Serves(s, k) && s.handlers[k].l.retry.Some?
    ensures SpawnsOnce(s, Apply(s, RetryFires(k, env)))
  {
    var l := s.handlers[k].l;
    var l1 := l.(retry := None);
    if CanContinue(s, k, l) {
      SpawnCounts(s, s, k, l1, l.retry.value, false, env);
    } else {
      PutSpawnsNothing(s, Put(s, k, Finish(l1)), k, Serving(Finish(l1)));
    }
  }

  lemma {:induction false} ServeSpawnsOnce(s: System, e: Event)
    requires e.Resume? && e.k < |s.handlers| && s.handlers[e.k].Taken?
    ensures SpawnsOnce(s, Apply(s, e))
  {
  }

  lemma {:induction false} HandlerEventSpawnsNothing(s: System, e: Event)
    requires e.FirstData? || e.FirstByteTimeout? || e.AudioEvidence? || e.Exit? || e.ProcError? || e.ClientGone?
             || e.Deadline?
    ensures SpawnsOnce(s, Apply(s, e))
  {
    if Serves(s, e.k) {
      PutSpawnsNothing(s, Apply(s, e), e.k, Apply(s, e).handlers[e.k]);
    }
  }

  lemma {:induction false} StepSpawns(s: System, e: Event)
    ensures SpawnsOnce(s, Apply(s, e))
  {
    match e
    case Close(k, env) => if Attempting(s, k) { ClosedSpawnsOnce(s, k, env); }
    case RetryFires(k, env) => if Serves(s, k) && s.handlers[k].l.retry.Some? { RetrySpawnsOnce(s, k, env); }
    case Resume(k, _, _, _, _) => if k < |s.handlers| && s.handlers[k].Taken? { ServeSpawnsOnce(s, e); }
    case Get =>
    case TakeoverEnds(_, _) =>
    case Delete =>
    case _ => HandlerEventSpawnsNothing(s, e);
  }

  lemma {:induction false} StepKeepsCount(s: System, t: System)
    requires SpawnsCounted(s) && SpawnsOnce(s, t)
    ensures SpawnsCounted(t)
  {
    forall k | 0 <= k < |t.handlers|
      ensures SpawnedBy(t.procs, k) == Spawned(t.handlers[k])
    {
      SameOwners(t.procs[..|s.procs|], s.procs, k);
      if |t.procs| == |s.procs| {
        assert t.procs[..|s.procs|] == t.procs;
      }
      if k >= |s.handlers| {
        NoneSpawnedBy(s.procs, k);
      }
    }
  }

  // ── Every run ─────────────────────────────────────────────────────────────

  ghost predicate Inv(s: System) {
    Registry(s) && LocalsKept(s) && SpawnsCounted(s)
  }

  lemma {:induction false} StepKeepsInv(s: System, e: Event)
    requires Inv(s)
    ensures Inv(Apply(s, e))
  {
    StepKeepsRegistry(s, e);
    StepKeepsLocals(s, e);
    StepSpawns(s, e);
    StepKeepsCount(s, Apply(s, e));
  }

  lemma {:induction false} RunKeepsInv(s: System, events: seq<Event>)
    requires Inv(s)
    ensures Inv(Exec(s, events))
    decreases |events|
  {
    if events == [] {
    } else {
      StepKeepsInv(s, events[0]);
      RunKeepsInv(Apply(s, events[0]), events[1..]);
    }
  }

  /** Never two live FFmpeg processes for one preview session, in any interleaving. */
  lemma {:induction false} NeverTwoAlive(events: seq<Event>)
    ensures AliveCount(Exec(START, events).procs) <= 1
  {
    RunKeepsInv(START, events);
    OneAliveIsOne(Exec(START, events).procs);
  }

  /** The fallback chain ends: one GET spawns at most one process per attempt of its chain
      and one more, and not that one when it started without audio. */
  lemma {:induction false} ChainIsBounded(events: seq<Event>, k: nat)
    ensures var s := Exec(START, events);
            k < |s.handlers| ==>
              SpawnedBy(s.procs, k) <= match s.handlers[k] {
                case Serving(l) => l.chain + (if l.startedVideoOnly then 0 else 1)
                case _ => 0
              }
  {
    RunKeepsInv(START, events);
  }

  /** At most one explicit status line, a 200 exactly when an attempt's first byte was
      accepted, and no response ends without a status line while its client waits. */
  lemma {:induction false} StatusLines(events: seq<Event>, k: nat)
    ensures var s := Exec(START, events);
            Serves(s, k) ==> ResponseOk(s.handlers[k].l)
  {
    RunKeepsInv(START, events);
  }

  /** A GET that lost the stream, to a newer GET or to the teardown, never spawns again. */
  lemma {:induction false} LostStreamSpawnsNothing(s: System, events: seq<Event>, k: nat)
    requires SpawnsCounted(s) && k < |s.handlers| && !Owner(s, k)
    ensures SpawnedBy(Exec(s, events).procs, k) == SpawnedBy(s.procs, k)
    decreases |events|
  {
    if events == [] {
    } else {
      StepSpawns(s, events[0]);
      StepKeepsCount(s, Apply(s, events[0]));
      LostStreamSpawnsNothing(Apply(s, events[0]), events[1..], k);
    }
  }

  /** After the teardown no process is ever spawned for the session. */
  lemma {:induction false} NothingAfterDelete(s: System, events: seq<Event>)
    requires s.closing
    ensures |Exec(s, events).procs| == |s.procs| && Exec(s, events).closing
    decreases |events|
  {
    if events == [] {
    } else {
      var t := Apply(s, events[0]);
      StepSpawns(s, events[0]);
      assert t.closing;
      NothingAfterDelete(t, events[1..]);
    }
  }
}
