/** apps/native/shared/native-controller.ts, lifecycle-binder.ts and apply-decision.ts:
    what drives the coordinator.

    Every method below issues at most one call on the coordinator, and issues it before
    its first await, so one input is one step. */
module PlaybackControl {
  import opened Common
  import S = PlaybackSession
  import C = PlaybackCoordinator
  import Runs = PlaybackRuns

  // ── apply-decision.ts ─────────────────────────────────────────────────────

  datatype DecisionKind = NativeHevc | NativeH264 | ServerH264 | Substream | Unavailable
  datatype Transport = Rtsps | Whep | Hls | NoTransport
  datatype Codec = Hevc | H264

  /** A server decision with the view, camera and device it is for. */
  datatype Decision = Decision(kind: DecisionKind, transport: Transport, context: nat)

  datatype Command = Open(transport: Transport, codec: Codec, context: nat) | Invalidate | Dispose

  predicate Native(d: Decision) {
    d.kind == NativeHevc || d.kind == NativeH264
  }

  /** The call a decision becomes. A native decision without a native transport is not
      guessed at: it gives up whatever is playing, like every fallback. */
  function CommandFor(d: Decision): Command {
    if Native(d) && (d.transport == Rtsps || d.transport == Whep)
    then Open(d.transport, if d.kind == NativeHevc then Hevc else H264, d.context)
    else Invalidate
  }

  // ── lifecycle-binder.ts ───────────────────────────────────────────────────

  datatype Signal = ToInvalidate | ToDispose | ToResume

  class NativeLifecycleBinder {
    var suspended: bool
    var disposed: bool

    constructor ()
      ensures !suspended && !disposed
    {
      suspended, disposed := false, false;
    }

    method OnHidden() returns (signal: Option<Signal>)
      modifies this
      ensures signal == if old(disposed) || old(suspended) then None else Some(ToInvalidate)
      ensures disposed == old(disposed) && suspended == (old(suspended) || !old(disposed))
    {
      if disposed || suspended {
        return None;
      }
      suspended := true;
      signal := Some(ToInvalidate);
    }

    method OnVisible() returns (signal: Option<Signal>)
      modifies this
      ensures signal == if old(disposed) || !old(suspended) then None else Some(ToResume)
      ensures disposed == old(disposed) && suspended == (old(suspended) && old(disposed))
    {
      if disposed || !suspended {
        return None;
      }
      suspended := false;
      signal := Some(ToResume);
    }

    method OnTeardown() returns (signal: Option<Signal>)
      modifies this
      ensures signal == if old(disposed) then None else Some(ToDispose)
      ensures disposed && suspended == old(suspended)
    {
      if disposed {
        return None;
      }
      disposed := true;
      signal := Some(ToDispose);
    }
  }

  // ── native-controller.ts ──────────────────────────────────────────────────

  /** The controller's fields and its binder's. */
  datatype State = State(suspended: bool, tornDown: bool, last: Option<Decision>, disposed: bool)

  const FRESH := State(false, false, None, false)

  datatype Input = Show(d: Decision) | Hidden | Visible | PageHide(persisted: bool) | Close

  function Next(s: State, input: Input): State
    decreases if input.PageHide? then 1 else 0
  {
    match input
    case Show(d) => if s.disposed then s else s.(last := Some(d))
    case Hidden => if s.tornDown then s else s.(suspended := true)
    case Visible => if s.tornDown then s else s.(suspended := false)
    case PageHide(persisted) => if persisted then Next(s, Hidden) else s.(tornDown := true)
    case Close => s.(tornDown := true, disposed := true, last := None)
  }

  function Issued(s: State, input: Input): Option<Command>
    decreases if input.PageHide? then 1 else 0
  {
    match input
    case Show(d) => if s.disposed then None else Some(CommandFor(d))
    case Hidden => if s.tornDown || s.suspended then None else Some(Invalidate)
    case Visible =>
      if s.tornDown || !s.suspended || s.disposed || s.last.None? then None else Some(CommandFor(s.last.value))
    case PageHide(persisted) =>
      if persisted then Issued(s, Hidden) else if s.tornDown then None else Some(Dispose)
    case Close => if s.tornDown then None else Some(Dispose)
  }

  class NativePlaybackController {
    const binder: NativeLifecycleBinder
    var last: Option<Decision>
    var disposed: bool

    function View(): State
      reads this, binder
    {
      State(binder.suspended, binder.disposed, last, disposed)
    }

    constructor ()
      ensures View() == FRESH && fresh(binder)
    {
      binder := new NativeLifecycleBinder();
      last, disposed := None, false;
    }

    method Show(d: Decision) returns (issued: Option<Command>)
      modifies this
      ensures View() == Next(old(View()), Input.Show(d)) && issued == Issued(old(View()), Input.Show(d))
    {
      if disposed {
        return None;
      }
      last := Some(d);
      issued := Some(CommandFor(d));
    }

    method Resume() returns (issued: Option<Command>)
      ensures issued == if disposed || last.None? then None else Some(CommandFor(last.value))
    {
      if disposed || last.None? {
        return None;
      }
      issued := Some(CommandFor(last.value));
    }

    method OnHidden() returns (issued: Option<Command>)
      modifies binder
      ensures View() == Next(old(View()), Hidden) && issued == Issued(old(View()), Hidden)
    {
      var signal := binder.OnHidden();
      issued := if signal.Some? then Some(Invalidate) else None;
    }

    method OnVisible() returns (issued: Option<Command>)
      modifies binder
      ensures View() == Next(old(View()), Visible) && issued == Issued(old(View()), Visible)
    {
      var signal := binder.OnVisible();
      if signal.None? {
        return None;
      }
      issued := Resume();
    }

    method OnPageHide(persisted: bool) returns (issued: Option<Command>)
      modifies binder
      ensures View() == Next(old(View()), PageHide(persisted)) && issued == Issued(old(View()), PageHide(persisted))
    {
      if persisted {
        issued := OnHidden();
        return;
      }
      var signal := binder.OnTeardown();
      issued := if signal.Some? then Some(Command.Dispose) else None;
    }

    method Dispose() returns (issued: Option<Command>)
      modifies this, binder
      ensures View() == Next(old(View()), Close) && issued == Issued(old(View()), Close)
    {
      disposed := true;
      last := None;
      var signal := binder.OnTeardown();
      issued := if signal.Some? then Some(Command.Dispose) else None;
    }
  }

  // ── The controller on its coordinator ─────────────────────────────────────

  /** Bookkeeping beside the two: `disposals` counts the dispose calls issued, `released`
      tells that the last call issued was not an open. */
  datatype System = System(control: State, coordinator: C.System, disposals: nat, released: bool)

  const START := System(FRESH, C.START, 0, true)

  /** An input of the platform, or any event of the coordinator that is not a new call:
      the controller is its only caller. */
  datatype Event = Drive(input: Input) | Answer(e: C.Event)

  function ToEvent(c: Command): C.Event {
    match c
    case Open(_, _, _) => C.CallOpen
    case Invalidate => C.CallClose(false)
    case Dispose => C.CallClose(true)
  }

  /** The coordinator event that a step of the whole amounts to, if any. */
  function Drives(s: System, e: Event): Option<C.Event> {
    match e
    case Drive(input) =>
      var issued := Issued(s.control, input);
      if issued.Some? then Some(ToEvent(issued.value)) else None
    case Answer(a) => if Runs.NewRequestEvent(a) then None else Some(a)
  }

  function Apply(s: System, e: Event): System {
    var d := Drives(s, e);
    System(
      if e.Drive? then Next(s.control, e.input) else s.control,
      if d.Some? then C.Apply(s.coordinator, d.value) else s.coordinator,
      if d == Some(C.CallClose(true)) then s.disposals + 1 else s.disposals,
      if d.Some? && Runs.NewRequestEvent(d.value) then d.value.CallClose? else s.released)
  }

  function Exec(s: System, events: seq<Event>): System
    decreases |events|
  {
    if events == [] then s else Exec(Apply(s, events[0]), events[1..])
  }

  ghost predicate Inv(s: System) {
    && C.Ordered(s.coordinator)
    && s.disposals == (if s.control.tornDown then 1 else 0)
    && (s.control.disposed ==> s.control.tornDown)
    && (s.control.tornDown ==> s.coordinator.session.f.disposed)
    && (s.released ==> s.coordinator.calls == [] || !Runs.OpenCall(s.coordinator.calls[|s.coordinator.calls| - 1]))
  }

  lemma {:induction false} AnswerKeepsLastKind(s: C.System, e: C.Event)
    requires !Runs.NewRequestEvent(e)
    ensures var t := C.Apply(s, e);
            && |t.calls| == |s.calls| && (s.session.f.disposed ==> t.session.f.disposed)
            && forall i :: 0 <= i < |s.calls| ==> Runs.OpenCall(t.calls[i]) == Runs.OpenCall(s.calls[i])
  {
    Runs.SessionTakesOneStep(s, e);
  }

  /** The first teardown, and only that, issues a dispose. */
  lemma {:induction false} DisposesOnTeardown(s: State, input: Input)
    requires s.disposed ==> s.tornDown
    ensures Next(s, input).disposed ==> Next(s, input).tornDown
    ensures Issued(s, input) == Some(Dispose) <==> !s.tornDown && Next(s, input).tornDown
    ensures s.tornDown ==> Next(s, input).tornDown
  {
  }

  /** A new call on the coordinator becomes its last one, of the kind asked for. */
  lemma {:induction false} CallIsLast(s: C.System, e: C.Event)
    requires C.Ordered(s) && Runs.NewRequestEvent(e)
    ensures var t := C.Apply(s, e);
            && C.Ordered(t) && t.calls != [] && Runs.OpenCall(t.calls[|t.calls| - 1]) == e.CallOpen?
            && t.session.f.disposed == (s.session.f.disposed || e == C.CallClose(true))
  {
    Runs.StepKeepsOrder(s, e);
  }

  lemma {:induction false} DriveKeepsInv(s: System, e: Event)
    requires Inv(s) && e.Drive?
    ensures Inv(Apply(s, e))
  {
    DisposesOnTeardown(s.control, e.input);
    var d := Drives(s, e);
    if d.Some? {
      CallIsLast(s.coordinator, d.value);
    }
  }

  lemma {:induction false} AnswerKeepsInv(s: System, e: Event)
    requires Inv(s) && e.Answer?
    ensures Inv(Apply(s, e))
  {
    if Drives(s, e).Some? {
      Runs.StepKeepsOrder(s.coordinator, e.e);
      AnswerKeepsLastKind(s.coordinator, e.e);
    }
  }

  lemma {:induction false} StepKeepsInv(s: System, e: Event)
    requires Inv(s)
    ensures Inv(Apply(s, e))
  {
    if e.Drive? {
      DriveKeepsInv(s, e);
    } else {
      AnswerKeepsInv(s, e);
    }
  }

  lemma {:induction false} RunKeepsInv(s: System, events: seq<Event>)
    requires Inv(s)
    ensures Inv(Exec(s, events))
    decreases |events|
  {
    if events == [] {
    } else {
      StepKeepsInv(s, events[0]);
      RunKeepsInv(Apply(s, events[0]), events[1..]);
    }
  }

  /** Whatever the platform and the server signal, and however the coordinator's calls
      interleave: dispose is called at most once, and once torn down nothing is
      published and nothing is left playing. */
  lemma {:induction false} TornDownOnce(events: seq<Event>)
    ensures var s := Exec(START, events);
            && s.disposals <= 1
            && (s.control.tornDown ==> s.disposals == 1 && s.coordinator.session.f.handle.None?)
            && (s.control.tornDown && Runs.Quiescent(s.coordinator) ==> s.coordinator.f.current.None?)
  {
    RunKeepsInv(START, events);
    var s := Exec(START, events).coordinator;
    assert Runs.Quiescent(s) ==> !C.CloseInFlight(s);
  }

  /** If the last call issued gave playback up (a hide, a fallback or unavailable decision, a
      teardown), nothing authenticated stays alive: once quiet there is neither grant nor
      handle. */
  lemma {:induction false} NothingAliveAfterRelease(events: seq<Event>)
    ensures var s := Exec(START, events);
            s.released && Runs.Quiescent(s.coordinator) ==>
              s.coordinator.f.current.None? && s.coordinator.session.f.handle.None?
  {
    RunKeepsInv(START, events);
  }

  predicate Shows(e: Event) {
    e.Drive? && e.input.Show?
  }

  predicate Wakes(e: Event) {
    e == Drive(Visible)
  }

  /** While hidden or torn down that stays so through any run in which nothing is shown and
      the hidden page does not return: neither repeated hides, a teardown nor late answers
      wake the decoder. */
  lemma {:induction false} HiddenStaysReleased(s: System, events: seq<Event>)
    requires s.released && (s.control.suspended || s.control.tornDown)
    requires forall i :: 0 <= i < |events| ==> !Shows(events[i]) && (s.control.tornDown || !Wakes(events[i]))
    ensures var t := Exec(s, events);
            t.released && (t.control.suspended || t.control.tornDown)
    decreases |events|
  {
    if events == [] {
    } else {
      HiddenStaysReleased(Apply(s, events[0]), events[1..]);
    }
  }

  /** Neither a return to visible nor a teardown. */
  predicate LeavesHidden(e: Event) {
    e.Drive? && e.input in {Visible, PageHide(false), Close}
  }

  /** The decision shown last in a run, if any was. */
  function LastShown(events: seq<Event>): Option<Decision> {
    if events == [] then None
    else if Shows(events[|events| - 1]) then Some(events[|events| - 1].input.d)
    else LastShown(events[..|events| - 1])
  }

  predicate Opens(d: Option<Decision>) {
    d.Some? && CommandFor(d.value).Open?
  }

  lemma {:induction false} ExecLast(s: System, events: seq<Event>)
    requires events != []
    ensures Exec(s, events) == Apply(Exec(s, events[..|events| - 1]), events[|events| - 1])
    decreases |events|
  {
    if |events| == 1 {
      assert events[..0] == [];
      assert events[1..] == [];
    } else {
      var front := events[..|events| - 1];
      ExecLast(Apply(s, events[0]), events[1..]);
      assert front[1..] == events[1..][..|events[1..]| - 1];
    }
  }

  lemma {:induction false} HiddenStep(s: System, e: Event)
    requires s.control.suspended && !s.control.tornDown && !s.control.disposed && !LeavesHidden(e)
    ensures var t := Apply(s, e);
            && t.control.suspended && !t.control.tornDown && !t.control.disposed
            && (t.released <==> if Shows(e) then !Opens(Some(e.input.d)) else s.released)
  {
  }

  /** The limit of that: a decision shown while hidden is opened at once, and hiding again
      issues nothing. While the page stays hidden playback is released exactly if the
      decision shown last, if any, is not one to open. */
  lemma {:induction false} HiddenIsReleasedIff(s: System, events: seq<Event>)
    requires s.released && s.control.suspended && !s.control.tornDown && !s.control.disposed
    requires forall i :: 0 <= i < |events| ==> !LeavesHidden(events[i])
    ensures var t := Exec(s, events);
            && t.control.suspended && !t.control.tornDown && !t.control.disposed
            && (t.released <==> !Opens(LastShown(events)))
    decreases |events|
  {
    if events == [] {
    } else {
      var front := events[..|events| - 1];
      HiddenIsReleasedIff(s, front);
      HiddenStep(Exec(s, front), events[|events| - 1]);
      ExecLast(s, events);
    }
  }

  const SHOWN := Decision(NativeHevc, Rtsps, 0)

  const HIDE_AND_SHOW := [Drive(Hidden), Drive(Show(SHOWN)), Answer(C.SessionReturns(0))]

  const ANSWERS := [
    Answer(C.GrantAnswers(1, C.Granted(1, 10), 0)), Answer(C.Adapter(S.AdapterReturns(1, 1))),
    Answer(C.SessionReturns(1)), Drive(Hidden)]

  const ASKING := System(
    State(true, false, Some(SHOWN), false),
    C.System(C.Fields(2, 2, None, {}), [C.ClosedDown, C.AwaitGrant], [],
             S.System(S.Fields(S.Stopped, None, 1, false), [S.Closed], 0, {}, multiset{}), {}, {}),
    0, false)

  lemma {:induction false} HideAndShow()
    ensures Exec(START, HIDE_AND_SHOW) == ASKING
  {
    var e := HIDE_AND_SHOW;
    var s1 := Apply(START, e[0]);
    var s2 := Apply(s1, e[1]);
    assert e == [e[0]] + ([e[1]] + ([e[2]] + []));
    ExecStep(START, e[0], [e[1]] + ([e[2]] + []));
    ExecStep(s1, e[1], [e[2]] + []);
    ExecStep(s2, e[2], []);
    assert s2.coordinator.calls == [C.ClosingSession(0), C.AwaitGrant];
  }

  lemma {:induction false} AnsweredWhileHidden()
    ensures var t := Exec(ASKING, ANSWERS);
            && t.control.suspended && Runs.Quiescent(t.coordinator)
            && t.coordinator.f.current.Some? && t.coordinator.session.f.handle.Some?
  {
    var e := ANSWERS;
    var s1 := Apply(ASKING, e[0]);
    var s2 := Apply(s1, e[1]);
    var s3 := Apply(s2, e[2]);
    assert e == [e[0]] + ([e[1]] + ([e[2]] + ([e[3]] + [])));
    ExecStep(ASKING, e[0], [e[1]] + ([e[2]] + ([e[3]] + [])));
    ExecStep(s1, e[1], [e[2]] + ([e[3]] + []));
    ExecStep(s2, e[2], [e[3]] + []);
    ExecStep(s3, e[3], []);
    assert s1.coordinator.session.ops == [S.Closed, S.AwaitAdapter(2)];
    assert s3.coordinator.calls == [C.ClosedDown, C.Done(C.Published(1, 1))];
    assert s3.coordinator.session.ops == [S.Closed, S.Opened(S.Published(1))];
  }

  lemma {:induction false} ExecConcat(s: System, a: seq<Event>, b: seq<Event>)
    ensures Exec(s, a + b) == Exec(Exec(s, a), b)
    decreases |a|
  {
    if a == [] {
      assert a + b == b;
    } else {
      ExecConcat(Apply(s, a[0]), a[1..], b);
      assert (a + b)[1..] == a[1..] + b;
    }
  }

  /** So a decoder can play while the page is hidden. */
  lemma {:induction false} DecoderPlaysWhileHidden()
    ensures exists events ::
              var t := Exec(START, events);
              && t.control.suspended && Runs.Quiescent(t.coordinator)
              && t.coordinator.f.current.Some? && t.coordinator.session.f.handle.Some?
  {
    HideAndShow();
    AnsweredWhileHidden();
    ExecConcat(START, HIDE_AND_SHOW, ANSWERS);
  }

  lemma {:induction false} ExecStep(s: System, e: Event, rest: seq<Event>)
    ensures Exec(s, [e] + rest) == Exec(Apply(s, e), rest)
  {
    assert ([e] + rest)[1..] == rest;
  }

  /** After a disposed controller no input reaches the coordinator; after a torn down page
      only a decision shown later does. */
  lemma {:induction false} TornDownSilence(s: State, input: Input)
    requires s.tornDown
    ensures s.disposed || !input.Show? ==> Issued(s, input).None?
    ensures Next(s, input).tornDown && (s.disposed ==> Next(s, input) == s || input == Close)
  {
  }

  // ── What holds of the coordinator holds here ──────────────────────────────

  /** The coordinator events a run amounts to. */
  function Driven(s: System, events: seq<Event>): seq<C.Event>
    decreases |events|
  {
    if events == [] then []
    else
      var d := Drives(s, events[0]);
      (if d.Some? then [d.value] else []) + Driven(Apply(s, events[0]), events[1..])
  }

  /** The controller's coordinator goes through one of the coordinator's own runs. */
  lemma {:induction false} RunsTheCoordinator(s: System, events: seq<Event>)
    ensures Exec(s, events).coordinator == C.Exec(s.coordinator, Driven(s, events))
    decreases |events|
  {
    if events == [] {
    } else {
      RunsTheCoordinator(Apply(s, events[0]), events[1..]);
      var d, rest := Drives(s, events[0]), Driven(Apply(s, events[0]), events[1..]);
      if d.Some? {
        assert ([d.value] + rest)[1..] == rest;
      } else {
        assert [] + rest == rest;
      }
    }
  }

  /** Under the controller too nothing is forgotten: once quiet every grant but the current
      one is revoked or pending and every handle but the published one was handed back once;
      and once torn down there is no exception. */
  lemma {:induction false} ControllerForgetsNothing(events: seq<Event>)
    ensures var s := Exec(START, events);
            Runs.Quiescent(s.coordinator) ==>
              && Runs.AllElseGivenUp(s.coordinator)
              && (s.control.tornDown ==>
                    s.coordinator.f.current.None? && s.coordinator.session.f.handle.None?)
  {
    RunsTheCoordinator(START, events);
    Runs.NothingForgotten(Driven(START, events));
    TornDownOnce(events);
  }

  // ── Which decisions open ──────────────────────────────────────────────────

  /** A decision shown to a live controller is opened exactly if it is a native one with a
      native transport, with the codec of its kind and for the view it came with; any other
      one gives playback up. */
  lemma {:induction false} DecisionOpensIff(s: State, d: Decision)
    requires !s.disposed
    ensures Issued(s, Show(d)).Some?
    ensures Issued(s, Show(d)) == Some(Command.Open(d.transport, Hevc, d.context)) <==>
              d.kind == NativeHevc && (d.transport == Rtsps || d.transport == Whep)
    ensures Issued(s, Show(d)) == Some(Command.Open(d.transport, H264, d.context)) <==>
              d.kind == NativeH264 && (d.transport == Rtsps || d.transport == Whep)
    ensures Issued(s, Show(d)) == Some(Invalidate) <==>
              !((d.kind == NativeHevc || d.kind == NativeH264) && (d.transport == Rtsps || d.transport == Whep))
  {
  }

  function StateAfter(s: State, inputs: seq<Input>): State {
    if inputs == [] then s else Next(StateAfter(s, inputs[..|inputs| - 1]), inputs[|inputs| - 1])
  }

  function LastOf(inputs: seq<Input>): Option<Decision> {
    if inputs == [] then None
    else if inputs[|inputs| - 1].Show? then Some(inputs[|inputs| - 1].d)
    else LastOf(inputs[..|inputs| - 1])
  }

  /** Hidden, or put away by a cached page, and not shown again since. */
  predicate IsHidden(inputs: seq<Input>) {
    inputs != [] &&
    var last := inputs[|inputs| - 1];
    last == Hidden || last == PageHide(true) || (last.Show? && IsHidden(inputs[..|inputs| - 1]))
  }

  lemma {:induction false} StateIsHistory(inputs: seq<Input>)
    requires forall i :: 0 <= i < |inputs| ==> inputs[i] != Close && inputs[i] != PageHide(false)
    ensures StateAfter(FRESH, inputs) == State(IsHidden(inputs), false, LastOf(inputs), false)
  {
    if inputs == [] {
    } else {
      StateIsHistory(inputs[..|inputs| - 1]);
    }
  }

  /** After any signals short of a teardown: hiding invalidates unless hidden already, and
      returning re-applies the decision shown last, if hidden and if there was one. */
  lemma {:induction false} SignalsFollowHistory(inputs: seq<Input>)
    requires forall i :: 0 <= i < |inputs| ==> inputs[i] != Close && inputs[i] != PageHide(false)
    ensures var s := StateAfter(FRESH, inputs);
            && Issued(s, Hidden) == (if IsHidden(inputs) then None else Some(Invalidate))
            && Issued(s, PageHide(true)) == Issued(s, Hidden)
            && (IsHidden(inputs) && LastOf(inputs).Some? ==>
                  Issued(s, Visible) == Issued(s, Show(LastOf(inputs).value)))
            && (!IsHidden(inputs) || LastOf(inputs).None? ==> Issued(s, Visible).None?)
            && Issued(s, Close) == Issued(s, PageHide(false)) == Some(Dispose)
  {
    StateIsHistory(inputs);
  }

  /** Once closed by its owner a controller issues nothing in any run and remembers nothing. */
  lemma {:induction false} ClosedIsSilent(before: seq<Input>, after: seq<Input>, input: Input)
    ensures var s := StateAfter(FRESH, before + ([Close] + after));
            s.tornDown && s.last.None? && Issued(s, input).None?
  {
    ClosedStays(before, after);
  }

  lemma {:induction false} ClosedStays(before: seq<Input>, after: seq<Input>)
    ensures var s := StateAfter(FRESH, before + ([Close] + after));
            s.tornDown && s.disposed && s.last.None?
  {
    var inputs := before + ([Close] + after);
    var front := inputs[..|inputs| - 1];
    if after == [] {
      assert inputs[|inputs| - 1] == Close;
    } else {
      ClosedStays(before, after[..|after| - 1]);
      assert front == before + ([Close] + after[..|after| - 1]);
      assert inputs[|inputs| - 1] == after[|after| - 1];
    }
  }
}
