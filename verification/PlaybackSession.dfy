/** apps/native/shared/session-controller.ts: one decoder session over a native
    video adapter.

    `Fields` are the fields of the source's class and the functions on them are the
    stretches of its async methods between two awaits. `LivePlaybackSession` is that
    class, written stretch by stretch and proved against those functions. `System`
    adds the calls in flight, so that a list of events is one interleaving of any
    number of overlapping calls with the adapter's answers. */
module PlaybackSession {
  import opened Common

  type Handle = nat

  datatype PlaybackState = Idle | Opening | Playing | Paused | Stopped | Failed | Disposed

  datatype CloseKind = Stop | Invalidate | Dispose

  datatype Fields = Fields(state: PlaybackState, handle: Option<Handle>, generation: nat, disposed: bool)

  const FRESH_FIELDS := Fields(Idle, None, 0, false)

  // ── The stretches between awaits ──────────────────────────────────────────

  function BeginOpen(f: Fields): Fields {
    f.(generation := f.generation + 1, state := Opening)
  }

  /** The staleness test made after each await of `open`. */
  predicate Current(f: Fields, gen: nat) {
    gen == f.generation && !f.disposed
  }

  function AdapterRejected(f: Fields, gen: nat): Fields {
    if gen == f.generation then f.(state := Failed) else f
  }

  function Publish(f: Fields, h: Handle): Fields {
    f.(handle := Some(h), state := Playing)
  }

  function BeginClose(f: Fields, kind: CloseKind): Fields {
    f.(generation := f.generation + 1, handle := None, disposed := f.disposed || kind == Dispose)
  }

  function EndClose(f: Fields, kind: CloseKind): Fields {
    f.(state := if kind == Dispose then Disposed else Stopped)
  }

  /** `stop`, `invalidate` or `dispose` up to its await. Without a handle there is nothing
      to wait for and it runs to its end. */
  function CloseNow(f: Fields, kind: CloseKind): Fields {
    if f.handle.Some? then BeginClose(f, kind) else EndClose(BeginClose(f, kind), kind)
  }

  /** What `open` does next: release its own stale handle, release the previous one
      first, or return it as published. */
  datatype OpenStep = ReleaseOwn | ReleasePrevious(prev: Handle) | Return

  class LivePlaybackSession {
    var state: PlaybackState
    var handle: Option<Handle>
    var generation: nat
    var disposed: bool

    function View(): Fields
      reads this
    {
      Fields(state, handle, generation, disposed)
    }

    constructor ()
      ensures View() == FRESH_FIELDS
    {
      state, handle, generation, disposed := Idle, None, 0, false;
    }

    /** `open` up to the adapter call; no generation is returned when it is refused. */
    method Open() returns (gen: Option<nat>)
      modifies this
      ensures gen == if old(disposed) then None else Some(generation)
      ensures View() == if old(disposed) then old(View()) else BeginOpen(old(View()))
    {
      if disposed {
        return None;
      }
      generation := generation + 1;
      state := Opening;
      gen := Some(generation);
    }

    /** `open` after a rejected adapter call. */
    method OnAdapterError(gen: nat)
      modifies this
      ensures View() == AdapterRejected(old(View()), gen)
    {
      if gen == generation {
        state := Failed;
      }
    }

    /** `open` after the adapter returned `h`. */
    method OnAdapterOpen(gen: nat, h: Handle) returns (next: OpenStep)
      modifies this
      ensures !Current(old(View()), gen) ==> next == ReleaseOwn && View() == old(View())
      ensures Current(old(View()), gen) && old(handle).None? ==>
                next == Return && View() == Publish(old(View()), h)
      ensures Current(old(View()), gen) && old(handle).Some? ==>
                next == ReleasePrevious(old(handle).value) && View() == old(View()).(handle := None)
    {
      if gen != generation || disposed {
        return ReleaseOwn;
      }
      var prev := handle;
      handle := None;
      if prev.Some? {
        return ReleasePrevious(prev.value);
      }
      next := OnPreviousReleased(gen, h);
    }

    /** `open` after the previous handle was disposed: the second generation check. */
    method OnPreviousReleased(gen: nat, h: Handle) returns (next: OpenStep)
      modifies this
      ensures next == if Current(old(View()), gen) then Return else ReleaseOwn
      ensures View() == if Current(old(View()), gen) then Publish(old(View()), h) else old(View())
    {
      if gen != generation || disposed {
        return ReleaseOwn;
      }
      handle := Some(h);
      state := Playing;
      next := Return;
    }

    method Close(kind: CloseKind) returns (toRelease: Option<Handle>)
      modifies this
      ensures toRelease == old(handle)
      ensures View() == CloseNow(old(View()), kind)
    {
      if kind == Dispose {
        disposed := true;
      }
      generation := generation + 1;
      toRelease := handle;
      handle := None;
      if toRelease.None? {
        OnClosed(kind);
      }
    }

    method OnClosed(kind: CloseKind)
      modifies this
      ensures View() == EndClose(old(View()), kind)
    {
      state := if kind == Dispose then Disposed else Stopped;
    }
  }

  // ── Every interleaving of overlapping calls ───────────────────────────────

  datatype Outcome = Published(handle: Handle) | WasStale | WasRejected | WasDisposed

  datatype Op =
    | AwaitAdapter(gen: nat)
    | AwaitPrevious(gen: nat, own: Handle)   // the previous handle is being disposed
    | AwaitOwn                               // its own stale handle is being disposed
    | Opened(outcome: Outcome)
    | Closing(kind: CloseKind)
    | Closed

  /** Bookkeeping beside the fields: `received` logs every handle the adapter returned,
      `released` every handle passed to its dispose or stop, and `latest` is the call
      that last advanced the generation. */
  datatype System = System(
    f: Fields, ops: seq<Op>, latest: nat, received: set<Handle>, released: multiset<Handle>)

  datatype Event =
    | CallOpen
    | CallClose(kind: CloseKind)
    | AdapterReturns(op: nat, h: Handle)
    | AdapterFails(op: nat)
    | ReleaseCompletes(op: nat)

  const START := System(FRESH_FIELDS, [], 0, {}, multiset{})

  function StartOpen(s: System): System {
    if s.f.disposed then s.(ops := s.ops + [Opened(WasDisposed)])
    else s.(f := BeginOpen(s.f), ops := s.ops + [AwaitAdapter(s.f.generation + 1)], latest := |s.ops|)
  }

  function StartClose(s: System, kind: CloseKind): System {
    s.(f := CloseNow(s.f, kind),
       ops := s.ops + [if s.f.handle.Some? then Closing(kind) else Closed],
       latest := |s.ops|,
       released := s.released + Own(s.f.handle))
  }

  function PublishOp(s: System, i: nat, h: Handle): System
    requires i < |s.ops|
  {
    s.(f := Publish(s.f, h), ops := s.ops[i := Opened(Published(h))])
  }

  function ReleaseOwnOp(s: System, i: nat, h: Handle): System
    requires i < |s.ops|
  {
    s.(ops := s.ops[i := AwaitOwn], released := s.released + multiset{h})
  }

  function AdapterReturn(s: System, i: nat, h: Handle): System
    requires i < |s.ops| && s.ops[i].AwaitAdapter?
  {
    var s1 := s.(received := s.received + {h});
    var gen := s.ops[i].gen;
    if !Current(s.f, gen) then ReleaseOwnOp(s1, i, h)
    else if s.f.handle.None? then PublishOp(s1, i, h)
    else s1.(f := s.f.(handle := None),
             ops := s.ops[i := AwaitPrevious(gen, h)],
             released := s.released + Own(s.f.handle))
  }

  function AdapterFail(s: System, i: nat): System
    requires i < |s.ops| && s.ops[i].AwaitAdapter?
  {
    s.(f := AdapterRejected(s.f, s.ops[i].gen), ops := s.ops[i := Opened(WasRejected)])
  }

  function ReleaseComplete(s: System, i: nat): System
    requires i < |s.ops|
  {
    match s.ops[i]
    case AwaitPrevious(gen, h) => if Current(s.f, gen) then PublishOp(s, i, h) else ReleaseOwnOp(s, i, h)
    case AwaitOwn => s.(ops := s.ops[i := Opened(WasStale)])
    case Closing(kind) => s.(f := EndClose(s.f, kind), ops := s.ops[i := Closed])
    case _ => s
  }

  /** One step. An event that cannot happen in `s` changes nothing, so every list of
      events is a run. The adapter's handles are new. */
  function Apply(s: System, e: Event): System {
    match e
    case CallOpen => StartOpen(s)
    case CallClose(kind) => StartClose(s, kind)
    case AdapterReturns(i, h) =>
      if i < |s.ops| && s.ops[i].AwaitAdapter? && h !in s.received then AdapterReturn(s, i, h) else s
    case AdapterFails(i) =>
      if i < |s.ops| && s.ops[i].AwaitAdapter? then AdapterFail(s, i) else s
    case ReleaseCompletes(i) => if i < |s.ops| then ReleaseComplete(s, i) else s
  }

  function Exec(s: System, events: seq<Event>): System
    decreases |events|
  {
    if events == [] then s else Exec(Apply(s, events[0]), events[1..])
  }

  // ── What every step keeps ─────────────────────────────────────────────────

  predicate Live(op: Op) {
    op.AwaitAdapter? || op.AwaitPrevious?
  }

  function HeldBy(op: Op): multiset<Handle> {
    if op.AwaitPrevious? then multiset{op.own} else multiset{}
  }

  function Placed(s: System): multiset<Handle> {
    s.released + Own(s.f.handle)
  }

  /** Every handle is in exactly one place: the field, one open, or released. */
  ghost predicate HandlesConserved(s: System) {
    multiset(s.received) == Placed(s) + AllHeld(s.ops, HeldBy)
  }

  /** Only the latest call can pass a generation check, and while it waits for the
      previous handle's disposal no handle is published. */
  ghost predicate LatestWins(s: System) {
    && (forall i :: 0 <= i < |s.ops| && Live(s.ops[i]) ==>
          if i == s.latest then Current(s.f, s.ops[i].gen) else s.ops[i].gen < s.f.generation)
    && (s.latest < |s.ops| && s.ops[s.latest].AwaitPrevious? ==> s.f.handle.None?)
    && (s.f.disposed ==> s.f.handle.None?)
  }

  ghost predicate Inv(s: System) {
    LatestWins(s) && HandlesConserved(s)
  }

  /** A new call holds nothing yet. */
  lemma {:induction false} AppendKeepsHandles(s: System, t: System, op: Op)
    requires HandlesConserved(s) && t.ops == s.ops + [op] && HeldBy(op) == multiset{}
    requires t.received == s.received && Placed(t) == Placed(s)
    ensures HandlesConserved(t)
  {
    HeldAfterAppend(s.ops, op, HeldBy);
    HandOver(multiset(s.received), Placed(s), AllHeld(s.ops, HeldBy), Placed(t), HeldBy(op));
  }

  lemma {:induction false} OpenKeepsHandles(s: System)
    requires HandlesConserved(s)
    ensures HandlesConserved(StartOpen(s))
  {
    var t := StartOpen(s);
    AppendKeepsHandles(s, t, t.ops[|s.ops|]);
  }

  /** The handle in the field is handed over. */
  lemma {:induction false} CloseMoves(s: System, kind: CloseKind)
    ensures Placed(StartClose(s, kind)) == Placed(s)
  {
    assert Own(StartClose(s, kind).f.handle) == multiset{};
  }

  lemma {:induction false} CloseKeepsHandles(s: System, kind: CloseKind)
    requires HandlesConserved(s)
    ensures HandlesConserved(StartClose(s, kind))
  {
    var t := StartClose(s, kind);
    CloseMoves(s, kind);
    AppendKeepsHandles(s, t, t.ops[|s.ops|]);
  }

  lemma {:induction false} NewCallKeepsHandles(s: System, e: Event)
    requires HandlesConserved(s) && (e.CallOpen? || e.CallClose?)
    ensures HandlesConserved(Apply(s, e))
  {
    if e.CallOpen? {
      OpenKeepsHandles(s);
    } else {
      CloseKeepsHandles(s, e.kind);
    }
  }

  lemma {:induction false} AnswerKeepsHandles(s: System, t: System, i: nat)
    requires HandlesConserved(s) && i < |s.ops| == |t.ops| && t.ops == s.ops[i := t.ops[i]]
    requires multiset(t.received) + Placed(s) + HeldBy(s.ops[i])
          == multiset(s.received) + Placed(t) + HeldBy(t.ops[i])
    ensures HandlesConserved(t)
  {
    HeldAfterUpdate(s.ops, i, t.ops[i], HeldBy);
    Rebalance(multiset(s.received), Placed(s), AllHeld(s.ops, HeldBy), HeldBy(s.ops[i]),
              multiset(t.received), Placed(t), AllHeld(t.ops, HeldBy), HeldBy(t.ops[i]));
  }

  lemma {:induction false} AdapterReturnKeepsHandles(s: System, i: nat, h: Handle)
    requires HandlesConserved(s) && i < |s.ops| && s.ops[i].AwaitAdapter? && h !in s.received
    ensures HandlesConserved(AdapterReturn(s, i, h))
  {
    AddedOnce(s.received, h);
    AnswerKeepsHandles(s, AdapterReturn(s, i, h), i);
  }

  /** The handle in flight is published into an empty field or released. */
  lemma {:induction false} ReleaseMoves(s: System, i: nat)
    requires i < |s.ops|
    requires s.ops[i].AwaitPrevious? && Current(s.f, s.ops[i].gen) ==> s.f.handle.None?
    ensures var t := ReleaseComplete(s, i);
            && t.received == s.received && t.ops == s.ops[i := t.ops[i]]
            && Placed(s) + HeldBy(s.ops[i]) == Placed(t) + HeldBy(t.ops[i])
  {
    var t := ReleaseComplete(s, i);
    if s.ops[i].AwaitPrevious? && !Current(s.f, s.ops[i].gen) {
      assert Placed(t) == Placed(s) + multiset{s.ops[i].own};
    }
  }

  lemma {:induction false} ReleaseCompleteKeepsHandles(s: System, i: nat)
    requires HandlesConserved(s) && i < |s.ops|
    requires s.ops[i].AwaitPrevious? && Current(s.f, s.ops[i].gen) ==> s.f.handle.None?
    ensures HandlesConserved(ReleaseComplete(s, i))
  {
    var t := ReleaseComplete(s, i);
    ReleaseMoves(s, i);
    BalancedMove(multiset(s.received), Placed(s), HeldBy(s.ops[i]), Placed(t), HeldBy(t.ops[i]));
    AnswerKeepsHandles(s, t, i);
  }

  lemma {:induction false} AdapterFailKeepsHandles(s: System, i: nat)
    requires HandlesConserved(s) && i < |s.ops| && s.ops[i].AwaitAdapter?
    ensures HandlesConserved(AdapterFail(s, i))
  {
    assert Placed(AdapterFail(s, i)) == Placed(s);
    AnswerKeepsHandles(s, AdapterFail(s, i), i);
  }

  lemma {:induction false} NewCallKeepsOrder(s: System, e: Event)
    requires LatestWins(s) && (e.CallOpen? || e.CallClose?)
    ensures LatestWins(Apply(s, e))
  {
  }

  lemma {:induction false} AnswerKeepsOrder(s: System, e: Event)
    requires LatestWins(s) && AdapterEvent(e)
    ensures LatestWins(Apply(s, e))
  {
  }

  lemma {:induction false} StepKeepsInv(s: System, e: Event)
    requires Inv(s)
    ensures Inv(Apply(s, e))
  {
    match e
    case AdapterReturns(i, h) =>
      AnswerKeepsOrder(s, e);
      if i < |s.ops| && s.ops[i].AwaitAdapter? && h !in s.received {
        AdapterReturnKeepsHandles(s, i, h);
      }
    case AdapterFails(i) =>
      AnswerKeepsOrder(s, e);
      if i < |s.ops| && s.ops[i].AwaitAdapter? {
        AdapterFailKeepsHandles(s, i);
      }
    case ReleaseCompletes(i) =>
      AnswerKeepsOrder(s, e);
      if i < |s.ops| {
        ReleaseCompleteKeepsHandles(s, i);
      }
    case _ =>
      NewCallKeepsOrder(s, e);
      NewCallKeepsHandles(s, e);
  }

  lemma {:induction false} RunKeepsInv(s: System, events: seq<Event>)
    requires Inv(s)
    ensures Inv(Exec(s, events))
    decreases |events|
  {
    if events == [] {
    } else {
      StepKeepsInv(s, events[0]);
      RunKeepsInv(Apply(s, events[0]), events[1..]);
    }
  }

  predicate Finished(op: Op) {
    op.Opened? || op.Closed?
  }

  ghost predicate Quiescent(s: System) {
    forall i :: 0 <= i < |s.ops| ==> Finished(s.ops[i])
  }

  lemma {:induction false} QuiescentHoldsNothing(s: System)
    requires Inv(s) && Quiescent(s)
    ensures multiset(s.received) == s.released + Own(s.f.handle)
  {
    NothingHeld(s.ops, HeldBy);
  }

  /** Handle conservation: in every interleaving a handle is released at most once, and
      once no call is in flight every handle but the published one was released exactly
      once. */
  lemma {:induction false} HandleConservation(events: seq<Event>, h: Handle)
    ensures var s := Exec(START, events);
            && s.released[h] <= 1
            && (h !in s.received ==> s.released[h] == 0 && s.f.handle != Some(h))
            && (s.f.handle == Some(h) ==> s.released[h] == 0)
            && (Quiescent(s) && h in s.received && s.f.handle != Some(h) ==> s.released[h] == 1)
  {
    RunKeepsInv(START, events);
    var s := Exec(START, events);
    assert multiset(s.received)[h] == s.released[h] + Own(s.f.handle)[h] + AllHeld(s.ops, HeldBy)[h];
    if Quiescent(s) {
      QuiescentHoldsNothing(s);
    }
  }

  // ── What the youngest call can rely on ────────────────────────────────────

  predicate AdapterEvent(e: Event) {
    e.AdapterReturns? || e.AdapterFails? || e.ReleaseCompletes?
  }

  /** The latest call is an open that is still on its way or ended as it should: nothing
      overtook it. */
  ghost predicate NotOvertaken(s: System, op: nat) {
    && op < |s.ops|
    && match s.ops[op] {
         case AwaitAdapter(_) => op == s.latest
         case AwaitPrevious(_, _) => op == s.latest
         case Opened(Published(h)) => op == s.latest && s.f.handle == Some(h)
         case Opened(WasRejected) => op == s.latest
         case Opened(WasDisposed) => s.f.disposed
         case _ => false
       }
  }

  /** The latest call is done and the field holds what it left there. */
  ghost predicate Settled(s: System, h: Option<Handle>) {
    && s.f.handle == h
    && (s.latest < |s.ops| ==> !Live(s.ops[s.latest]))
  }

  lemma {:induction false} OpenIsNotOvertaken(s: System)
    requires LatestWins(s)
    ensures NotOvertaken(StartOpen(s), |s.ops|)
  {
  }

  lemma {:induction false} CloseSettles(s: System, kind: CloseKind)
    requires LatestWins(s)
    ensures Settled(StartClose(s, kind), None)
    ensures kind == Dispose ==> StartClose(s, kind).f.disposed
  {
  }

  /** Adapter answers to other calls take nothing away from the latest one. */
  lemma {:induction false} NotOvertakenStays(s: System, e: Event, op: nat)
    requires LatestWins(s) && NotOvertaken(s, op) && AdapterEvent(e)
    ensures NotOvertaken(Apply(s, e), op)
  {
  }

  lemma {:induction false} SettledStays(s: System, e: Event, h: Option<Handle>)
    requires LatestWins(s) && Settled(s, h) && AdapterEvent(e)
    ensures Settled(Apply(s, e), h)
  {
  }

  predicate OpenOp(op: Op) {
    !op.Closing? && !op.Closed?
  }

  function Answered(e: Event): nat
    requires AdapterEvent(e)
  {
    match e
    case AdapterReturns(i, _) => i
    case AdapterFails(i) => i
    case ReleaseCompletes(i) => i
  }

  /** An answer moves only the call it is for, and not a finished one. */
  lemma {:induction false} AnswerMovesOne(s: System, e: Event, i: nat)
    requires AdapterEvent(e) && i < |s.ops|
    ensures |Apply(s, e).ops| == |s.ops|
    ensures Answered(e) != i || Finished(s.ops[i]) ==> Apply(s, e).ops[i] == s.ops[i]
  {
  }

  lemma {:induction false} AnswerKeepsKind(s: System, e: Event)
    requires AdapterEvent(e) && Answered(e) < |s.ops|
    ensures |Apply(s, e).ops| == |s.ops|
    ensures OpenOp(Apply(s, e).ops[Answered(e)]) == OpenOp(s.ops[Answered(e)])
  {
  }

  /** No call is ever turned into one of the other kind, and a finished one stays. */
  lemma {:induction false} OpsKeepTheirKind(s: System, e: Event, i: nat)
    requires i < |s.ops|
    ensures |Apply(s, e).ops| >= |s.ops|
    ensures OpenOp(Apply(s, e).ops[i]) == OpenOp(s.ops[i])
    ensures Finished(s.ops[i]) ==> Apply(s, e).ops[i] == s.ops[i]
  {
    if AdapterEvent(e) {
      AnswerMovesOne(s, e, i);
      if Answered(e) == i {
        AnswerKeepsKind(s, e);
      }
    }
  }
}
