/** The visible state of a decoder session: what sets it, and exactly when it tells the truth
    about a published decoder. */
module PlaybackStates {
  import opened Common
  import opened PlaybackSession

  // ── What sets the state ───────────────────────────────────────────────────

  /** An open shows as opening, unless the session was disposed. */
  lemma {:induction false} OpenShows(s: System)
    ensures Apply(s, CallOpen).f.state == if s.f.disposed then s.f.state else Opening
    ensures Apply(s, CallOpen).f.generation == s.f.generation + (if s.f.disposed then 0 else 1)
  {
  }

  /** A refused open shows as failed only if it is of the current generation. */
  lemma {:induction false} RefusalShows(s: System, i: nat)
    requires i < |s.ops| && s.ops[i].AwaitAdapter?
    ensures var t := Apply(s, AdapterFails(i));
            && t.f == s.f.(state := if s.ops[i].gen == s.f.generation then Failed else s.f.state)
            && t.ops == s.ops[i := Opened(WasRejected)]
  {
  }

  /** A close shows at once if it has nothing to hand over, else when that is done; it does not
      ask what has happened meanwhile. */
  lemma {:induction false} CloseShows(s: System, kind: CloseKind)
    ensures var t := Apply(s, CallClose(kind));
            && |t.ops| == |s.ops| + 1 && t.f.handle.None? && t.f.generation == s.f.generation + 1
            && t.f.disposed == (s.f.disposed || kind == Dispose)
            && if s.f.handle.Some? then t.ops[|s.ops|] == Closing(kind) && t.f.state == s.f.state
               else t.ops[|s.ops|] == Closed && t.f.state == if kind == Dispose then Disposed else Stopped
  {
  }

  lemma {:induction false} CloseEndShows(s: System, i: nat)
    requires i < |s.ops| && s.ops[i].Closing?
    ensures var t := Apply(s, ReleaseCompletes(i));
            && t.ops == s.ops[i := Closed]
            && t.f == s.f.(state := if s.ops[i].kind == Dispose then Disposed else Stopped)
  {
  }

  /** The adapter's handle is given up by an open that was overtaken, published by the latest
      one at once if the field is empty, and else kept back until the previous one is gone. */
  lemma {:induction false} HandleShows(s: System, i: nat, h: Handle)
    requires i < |s.ops| && s.ops[i].AwaitAdapter? && h !in s.received
    ensures var t, gen := Apply(s, AdapterReturns(i, h)), s.ops[i].gen;
            && t.received == s.received + {h}
            && if gen != s.f.generation || s.f.disposed then
                 t.f == s.f && t.ops == s.ops[i := AwaitOwn] && t.released == s.released + multiset{h}
               else if s.f.handle.None? then
                 && t.ops == s.ops[i := Opened(Published(h))] && t.released == s.released
                 && t.f == Fields(PlaybackState.Playing, Some(h), gen, false)
               else
                 && t.ops == s.ops[i := AwaitPrevious(gen, h)]
                 && t.released == s.released + multiset{s.f.handle.value}
                 && t.f == Fields(s.f.state, None, gen, false)
  {
  }

  /** After the previous handle is gone the latest open publishes, an overtaken one gives its
      own handle up; one that has done so was stale. */
  lemma {:induction false} ReleaseShows(s: System, i: nat)
    requires i < |s.ops| && (s.ops[i].AwaitPrevious? || s.ops[i].AwaitOwn?)
    ensures var t := Apply(s, ReleaseCompletes(i));
            if s.ops[i].AwaitOwn? then
              t.f == s.f && t.ops == s.ops[i := Opened(WasStale)] && t.released == s.released
            else if s.ops[i].gen != s.f.generation || s.f.disposed then
              t.f == s.f && t.ops == s.ops[i := AwaitOwn] && t.released == s.released + multiset{s.ops[i].own}
            else
              && t.ops == s.ops[i := Opened(Published(s.ops[i].own))] && t.released == s.released
              && t.f == Fields(PlaybackState.Playing, Some(s.ops[i].own), s.ops[i].gen, false)
  {
  }

  // ── Does it tell the truth? ───────────────────────────────────────────────

  ghost predicate ClosingInFlight(s: System) {
    exists i :: 0 <= i < |s.ops| && s.ops[i].Closing?
  }

  predicate OnlyAnswers(events: seq<Event>) {
    forall i :: 0 <= i < |events| ==> AdapterEvent(events[i])
  }

  /** The latest call published `h`; `shown` says whether the state will stay truthful. */
  ghost predicate Playing(s: System, h: Handle, shown: bool) {
    && LatestWins(s) && s.latest < |s.ops| && s.ops[s.latest] == Opened(Published(h)) && s.f.handle == Some(h)
    && (shown ==> s.f.state == PlaybackState.Playing && !ClosingInFlight(s))
    && (!shown ==> s.f.state != PlaybackState.Playing || ClosingInFlight(s))
  }

  /** The closes in flight are those before, minus the one answered. */
  lemma {:induction false} ClosesAnswered(s: System, e: Event)
    requires AdapterEvent(e)
    ensures ClosingInFlight(Apply(s, e)) ==> ClosingInFlight(s)
    ensures ClosingInFlight(s) ==>
              ClosingInFlight(Apply(s, e)) || (e.ReleaseCompletes? && e.op < |s.ops| && s.ops[e.op].Closing?)
  {
    var t := Apply(s, e);
    if ClosingInFlight(t) {
      var i :| 0 <= i < |t.ops| && t.ops[i].Closing?;
      AnswerMovesOne(s, e, i);
      if Answered(e) == i {
        assert s.ops[i].Closing?;
      }
    }
    if ClosingInFlight(s) {
      var i :| 0 <= i < |s.ops| && s.ops[i].Closing?;
      AnswerMovesOne(s, e, i);
      if Answered(e) != i {
        assert t.ops[i].Closing?;
      }
    }
  }

  /** Answers to other calls leave the field and, a close aside, the state alone. */
  lemma {:induction false} OthersDoNotShow(s: System, e: Event, h: Handle)
    requires LatestWins(s) && AdapterEvent(e)
    requires s.latest < |s.ops| && s.ops[s.latest] == Opened(Published(h)) && s.f.handle == Some(h)
    ensures var t := Apply(s, e);
            && t.latest == s.latest && t.latest < |t.ops| && t.ops[t.latest] == s.ops[s.latest]
            && t.f.handle == s.f.handle
            && t.f.state == if e.ReleaseCompletes? && e.op < |s.ops| && s.ops[e.op].Closing?
                            then (if s.ops[e.op].kind == Dispose then Disposed else Stopped) else s.f.state
  {
  }

  lemma {:induction false} StepKeepsPlaying(s: System, e: Event, h: Handle, shown: bool)
    requires Playing(s, h, shown) && AdapterEvent(e)
    ensures Playing(Apply(s, e), h, shown)
  {
    AnswerKeepsOrder(s, e);
    OthersDoNotShow(s, e, h);
    ClosesAnswered(s, e);
    if e.ReleaseCompletes? && e.op < |s.ops| && s.ops[e.op].Closing? {
      assert ClosingInFlight(s);
    }
  }

  lemma {:induction false} RunKeepsPlaying(s: System, events: seq<Event>, h: Handle, shown: bool)
    requires Playing(s, h, shown) && OnlyAnswers(events)
    ensures Playing(Exec(s, events), h, shown)
    decreases |events|
  {
    if events == [] {
    } else {
      StepKeepsPlaying(s, events[0], h, shown);
      RunKeepsPlaying(Apply(s, events[0]), events[1..], h, shown);
    }
  }

  /** The latest open has just been published. Once quiet its decoder is still there, and the
      state says so exactly if no stop, invalidate or dispose was in flight at that moment:
      their tails set the state without asking what was published meanwhile. */
  lemma {:induction false} PublishedShowsPlayingIff(before: seq<Event>, after: seq<Event>, h: Handle)
    requires OnlyAnswers(after)
    ensures var s := Exec(START, before);
            var t := Exec(s, after);
            s.latest < |s.ops| && s.ops[s.latest] == Opened(Published(h)) && s.f.handle == Some(h)
            && s.f.state == PlaybackState.Playing && Quiescent(t) ==>
              && t.f.handle == Some(h)
              && (t.f.state == PlaybackState.Playing <==> !ClosingInFlight(s))
  {
    var s := Exec(START, before);
    var t := Exec(s, after);
    RunKeepsInv(START, before);
    if s.latest < |s.ops| && s.ops[s.latest] == Opened(Published(h)) && s.f.handle == Some(h)
       && s.f.state == PlaybackState.Playing && Quiescent(t) {
      RunKeepsPlaying(s, after, h, !ClosingInFlight(s));
      QuietHasNoClose(t);
    }
  }

  lemma {:induction false} QuietHasNoClose(s: System)
    requires Quiescent(s)
    ensures !ClosingInFlight(s)
  {
  }

  /** Publishing shows as playing. */
  lemma {:induction false} PublishingShows(s: System, e: Event)
    requires AdapterEvent(e) && Apply(s, e).f.handle.Some? && Apply(s, e).f.handle != s.f.handle
    ensures Apply(s, e).f.state == PlaybackState.Playing
    ensures Answered(e) < |s.ops| && Apply(s, e).ops[Answered(e)] == Opened(Published(Apply(s, e).f.handle.value))
  {
  }
}
