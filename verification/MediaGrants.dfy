/** apps/native/shared/grant-client.ts: the client that holds one media grant. A call is cut
    at its awaits, as in the playback modules; the transport answers as it likes and never
    hands out a grant twice. */
module MediaGrants {
  import opened Common

  type GrantId = nat

  datatype Call =
    | Releasing(id: GrantId, acquiring: bool)   // a revocation is on its way
    | Requesting                                // a grant was asked for
    | Finished

  datatype Fields = Fields(current: Option<GrantId>, pending: set<GrantId>)

  /** A failed revocation is kept for a retry, a successful one is struck off. */
  function Revoked(f: Fields, id: GrantId, ok: bool): Fields {
    f.(pending := if ok then f.pending - {id} else f.pending + {id})
  }

  class MediaGrantClient {
    var current: Option<GrantId>
    var pending: set<GrantId>

    ghost function State(): Fields
      reads this
    {
      Fields(current, pending)
    }

    constructor ()
      ensures State() == Fields(None, {})
    {
      current, pending := None, {};
    }

    /** `acquire` and `release` up to their first await: the grant to revoke, if any. */
    method TakeCurrent() returns (taken: Option<GrantId>)
      modifies this
      ensures taken == old(current) && State() == old(State()).(current := None)
    {
      taken := current;
      if taken.None? {
        return;
      }
      current := None;
    }

    /** The rest of `acquire` once the transport answered. */
    method OnGrantAnswer(outcome: Option<GrantId>)
      modifies this
      ensures State() == old(State()).(current := if outcome.Some? then outcome else old(current))
    {
      if outcome.Some? {
        current := outcome;
      }
    }

    /** The rest of a revocation, first try or retry after a failure. */
    method OnRevokeAnswer(id: GrantId, ok: bool)
      modifies this
      ensures State() == Revoked(old(State()), id, ok)
    {
      if ok {
        pending := pending - {id};
      } else {
        pending := pending + {id};
      }
    }
  }

  // ── Interleavings ─────────────────────────────────────────────────────────

  /** `issued` and `revoked` log what the transport did; `overwritten` the grants that were
      current when an answer put another one in their place. */
  datatype System = System(
    f: Fields, calls: seq<Call>, issued: set<GrantId>, revoked: set<GrantId>, overwritten: set<GrantId>)

  datatype Event =
    | CallAcquire
    | CallRelease
    | RevokeAnswers(call: nat, ok: bool)
    | GrantAnswers(call: nat, outcome: Option<GrantId>)
    | RetryAnswers(id: GrantId, ok: bool)

  const START := System(Fields(None, {}), [], {}, {}, {})

  function Begin(s: System, acquiring: bool): System {
    s.(f := s.f.(current := None),
       calls := s.calls + [match s.f.current
                           case Some(id) => Releasing(id, acquiring)
                           case None => if acquiring then Requesting else Finished])
  }

  function Settle(s: System, id: GrantId, ok: bool): System {
    s.(f := Revoked(s.f, id, ok), revoked := if ok then s.revoked + {id} else s.revoked)
  }

  function Receive(s: System, i: nat, id: GrantId): System
    requires i < |s.calls|
  {
    s.(f := s.f.(current := Some(id)), calls := s.calls[i := Finished], issued := s.issued + {id},
       overwritten := s.overwritten + (if s.f.current.Some? then {s.f.current.value} else {}))
  }

  /** One step; an event that cannot happen changes nothing. A retry is for a revocation
      that failed; it may have succeeded elsewhere meanwhile, and its own failure leaves it
      as it was. */
  function Apply(s: System, e: Event): System {
    match e
    case CallAcquire => Begin(s, true)
    case CallRelease => Begin(s, false)
    case RevokeAnswers(i, ok) =>
      if i < |s.calls| && s.calls[i].Releasing? then
        var next := if s.calls[i].acquiring then Requesting else Finished;
        Settle(s.(calls := s.calls[i := next]), s.calls[i].id, ok)
      else s
    case GrantAnswers(i, outcome) =>
      if i < |s.calls| && s.calls[i].Requesting? then
        match outcome
        case Some(id) => if id in s.issued then s else Receive(s, i, id)
        case None => s.(calls := s.calls[i := Finished])
      else s
    case RetryAnswers(id, ok) =>
      if ok && (id in s.f.pending || id in s.revoked) then Settle(s, id, true) else s
  }

  function Exec(s: System, events: seq<Event>): System
    decreases |events|
  {
    if events == [] then s else Exec(Apply(s, events[0]), events[1..])
  }

  // ── Where every grant is ──────────────────────────────────────────────────

  predicate InFlight(s: System, id: GrantId) {
    exists i :: 0 <= i < |s.calls| && s.calls[i].Releasing? && s.calls[i].id == id
  }

  /** The client still knows of it, or it is revoked. */
  predicate Accounted(s: System, id: GrantId) {
    s.f.current == Some(id) || id in s.f.pending || id in s.revoked || InFlight(s, id)
  }

  /** An issued grant is accounted for unless it was overwritten, and never both; the
      current one is in no other place. */
  ghost predicate Books(s: System) {
    && (forall id: GrantId :: id in s.issued <==> Accounted(s, id) || id in s.overwritten)
    && (forall id: GrantId :: id in s.overwritten ==> !Accounted(s, id))
    && (s.f.current.Some? ==> s.f.current.value !in s.f.pending + s.revoked && !InFlight(s, s.f.current.value))
  }

  lemma {:induction false} BeginKeepsBooks(s: System, acquiring: bool)
    requires Books(s)
    ensures Books(Begin(s, acquiring))
  {
    var t := Begin(s, acquiring);
    forall id: GrantId
      ensures InFlight(t, id) <==> InFlight(s, id) || s.f.current == Some(id)
    {
      if InFlight(s, id) {
        var i :| 0 <= i < |s.calls| && s.calls[i].Releasing? && s.calls[i].id == id;
        assert t.calls[i] == s.calls[i];
      }
      if s.f.current == Some(id) {
        assert t.calls[|s.calls|] == Releasing(id, acquiring);
      }
    }
    forall id: GrantId
      ensures Accounted(t, id) == Accounted(s, id)
    {
      assert InFlight(t, id) <==> InFlight(s, id) || s.f.current == Some(id);
    }
  }

  lemma {:induction false} RevokeKeepsBooks(s: System, i: nat, ok: bool)
    requires Books(s) && i < |s.calls| && s.calls[i].Releasing?
    ensures Books(Apply(s, RevokeAnswers(i, ok)))
  {
    var t := Apply(s, RevokeAnswers(i, ok));
    var done := s.calls[i].id;
    assert InFlight(s, done);
    forall id: GrantId | id != done
      ensures InFlight(t, id) <==> InFlight(s, id)
    {
      if InFlight(s, id) {
        var k :| 0 <= k < |s.calls| && s.calls[k].Releasing? && s.calls[k].id == id;
        assert t.calls[k] == s.calls[k];
      }
    }
    forall id: GrantId
      ensures Accounted(t, id) == Accounted(s, id)
    {
    }
  }

  lemma {:induction false} AnswerKeepsBooks(s: System, i: nat, outcome: Option<GrantId>)
    requires Books(s) && i < |s.calls| && s.calls[i].Requesting?
    ensures Books(Apply(s, GrantAnswers(i, outcome)))
  {
    var t := Apply(s, GrantAnswers(i, outcome));
    forall id: GrantId
      ensures InFlight(t, id) <==> InFlight(s, id)
    {
      if InFlight(s, id) {
        var k :| 0 <= k < |s.calls| && s.calls[k].Releasing? && s.calls[k].id == id;
        assert t.calls[k] == s.calls[k];
      }
    }
  }

  lemma {:induction false} StepKeepsBooks(s: System, e: Event)
    requires Books(s)
    ensures Books(Apply(s, e))
  {
    match e
    case CallAcquire => BeginKeepsBooks(s, true);
    case CallRelease => BeginKeepsBooks(s, false);
    case RevokeAnswers(i, ok) =>
      if i < |s.calls| && s.calls[i].Releasing? {
        RevokeKeepsBooks(s, i, ok);
      }
    case GrantAnswers(i, outcome) =>
      if i < |s.calls| && s.calls[i].Requesting? {
        AnswerKeepsBooks(s, i, outcome);
      }
    case RetryAnswers(id, ok) => RetryKeepsBooks(s, id, ok);
  }

  lemma {:induction false} RetryKeepsBooks(s: System, id: GrantId, ok: bool)
    requires Books(s)
    ensures Books(Apply(s, RetryAnswers(id, ok)))
  {
    var t := Apply(s, RetryAnswers(id, ok));
    forall other: GrantId
      ensures InFlight(t, other) == InFlight(s, other) && Accounted(t, other) == Accounted(s, other)
    {
    }
  }

  lemma {:induction false} RunKeepsBooks(s: System, events: seq<Event>)
    requires Books(s)
    ensures Books(Exec(s, events))
    decreases |events|
  {
    if events == [] {
    } else {
      StepKeepsBooks(s, events[0]);
      RunKeepsBooks(Apply(s, events[0]), events[1..]);
    }
  }

  /** In every interleaving the grants nobody will revoke any more are exactly those
      overwritten while current. */
  lemma {:induction false} ForgottenAreOverwritten(events: seq<Event>, id: GrantId)
    ensures var s := Exec(START, events);
            id in s.issued && !Accounted(s, id) <==> id in s.overwritten
  {
    RunKeepsBooks(START, events);
  }

  // ── One place for every grant ─────────────────────────────────────────────

  /** The places exclude one another, and no two calls revoke the same grant. */
  ghost predicate Apart(s: System) {
    && s.f.pending !! s.revoked
    && (forall id: GrantId :: InFlight(s, id) ==> id !in s.f.pending + s.revoked)
    && (forall i, j :: 0 <= i < j < |s.calls| && s.calls[i].Releasing? && s.calls[j].Releasing? ==>
          s.calls[i].id != s.calls[j].id)
  }

  lemma {:induction false} BeginKeepsApart(s: System, acquiring: bool)
    requires Books(s) && Apart(s)
    ensures Apart(Begin(s, acquiring))
  {
    var t := Begin(s, acquiring);
    forall id: GrantId | InFlight(t, id)
      ensures InFlight(s, id) || s.f.current == Some(id)
    {
      var i :| 0 <= i < |t.calls| && t.calls[i].Releasing? && t.calls[i].id == id;
      assert i < |s.calls| ==> t.calls[i] == s.calls[i];
    }
    if s.f.current.Some? {
      assert forall i :: 0 <= i < |s.calls| && s.calls[i].Releasing? ==> InFlight(s, s.calls[i].id);
    }
  }

  lemma {:induction false} RevokeKeepsApart(s: System, i: nat, ok: bool)
    requires Apart(s) && i < |s.calls| && s.calls[i].Releasing?
    ensures Apart(Apply(s, RevokeAnswers(i, ok)))
  {
    var t := Apply(s, RevokeAnswers(i, ok));
    var done := s.calls[i].id;
    assert InFlight(s, done);
    forall id: GrantId | InFlight(t, id)
      ensures InFlight(s, id) && id != done
    {
      var k :| 0 <= k < |t.calls| && t.calls[k].Releasing? && t.calls[k].id == id;
      assert k != i && t.calls[k] == s.calls[k];
    }
  }

  lemma {:induction false} AnswerKeepsApart(s: System, i: nat, outcome: Option<GrantId>)
    requires Apart(s) && i < |s.calls| && s.calls[i].Requesting?
    ensures Apart(Apply(s, GrantAnswers(i, outcome)))
  {
    var t := Apply(s, GrantAnswers(i, outcome));
    forall id: GrantId | InFlight(t, id)
      ensures InFlight(s, id)
    {
      var k :| 0 <= k < |t.calls| && t.calls[k].Releasing? && t.calls[k].id == id;
      assert t.calls[k] == s.calls[k];
    }
  }

  lemma {:induction false} RetryKeepsApart(s: System, id: GrantId, ok: bool)
    requires Apart(s)
    ensures Apart(Apply(s, RetryAnswers(id, ok)))
  {
    var t := Apply(s, RetryAnswers(id, ok));
    forall other: GrantId
      ensures InFlight(t, other) == InFlight(s, other)
    {
    }
  }

  lemma {:induction false} StepKeepsApart(s: System, e: Event)
    requires Books(s) && Apart(s)
    ensures Apart(Apply(s, e))
  {
    match e
    case CallAcquire => BeginKeepsApart(s, true);
    case CallRelease => BeginKeepsApart(s, false);
    case RevokeAnswers(i, ok) =>
      if i < |s.calls| && s.calls[i].Releasing? {
        RevokeKeepsApart(s, i, ok);
      }
    case GrantAnswers(i, outcome) =>
      if i < |s.calls| && s.calls[i].Requesting? {
        AnswerKeepsApart(s, i, outcome);
      }
    case RetryAnswers(id, ok) => RetryKeepsApart(s, id, ok);
  }

  lemma {:induction false} RunKeepsApart(s: System, events: seq<Event>)
    requires Books(s) && Apart(s)
    ensures Apart(Exec(s, events))
    decreases |events|
  {
    if events == [] {
    } else {
      StepKeepsApart(s, events[0]);
      StepKeepsBooks(s, events[0]);
      RunKeepsApart(Apply(s, events[0]), events[1..]);
    }
  }

  function Places(s: System, id: GrantId): nat {
    (if s.f.current == Some(id) then 1 else 0) + (if id in s.f.pending then 1 else 0) +
    (if id in s.revoked then 1 else 0) + (if InFlight(s, id) then 1 else 0) +
    (if id in s.overwritten then 1 else 0)
  }

  /** In every interleaving a grant that was handed out is in exactly one place: current,
      being revoked, pending, revoked, or forgotten. */
  lemma {:induction false} OnePlace(events: seq<Event>, id: GrantId)
    ensures var s := Exec(START, events);
            Places(s, id) == if id in s.issued then 1 else 0
  {
    var s := Exec(START, events);
    RunKeepsBooks(START, events);
    RunKeepsApart(START, events);
    assert Accounted(s, id) <==> s.f.current == Some(id) || id in s.f.pending || id in s.revoked || InFlight(s, id);
  }

  // ── What one answer decides ───────────────────────────────────────────────

  /** A call takes the current grant to revoke it first; with none, an acquire asks at once
      and a release is over. */
  lemma {:induction false} CallDecides(s: System, acquiring: bool)
    ensures var t := Apply(s, if acquiring then CallAcquire else CallRelease);
            && t == s.(f := Fields(None, s.f.pending), calls := t.calls)
            && |t.calls| == |s.calls| + 1 && t.calls[..|s.calls|] == s.calls
            && match s.f.current
               case Some(id) => t.calls[|s.calls|] == Releasing(id, acquiring)
               case None => t.calls[|s.calls|] == if acquiring then Requesting else Finished
  {
  }

  /** A failed revocation is pending, a successful one is not; an acquire then asks for its
      grant either way, and a release is over. */
  lemma {:induction false} RevocationDecides(s: System, i: nat, ok: bool)
    requires i < |s.calls| && s.calls[i].Releasing?
    ensures var t, id := Apply(s, RevokeAnswers(i, ok)), s.calls[i].id;
            && t.calls == s.calls[i := if s.calls[i].acquiring then Requesting else Finished]
            && (id in t.f.pending <==> !ok) && t.f.pending - {id} == s.f.pending - {id}
            && (t.revoked == if ok then s.revoked + {id} else s.revoked)
            && t.f.current == s.f.current && t.issued == s.issued && t.overwritten == s.overwritten
  {
  }

  /** A granted answer becomes current and the call is over; a denial only ends the call. */
  lemma {:induction false} GrantDecides(s: System, i: nat, outcome: Option<GrantId>)
    requires i < |s.calls| && s.calls[i].Requesting? && (outcome.Some? ==> outcome.value !in s.issued)
    ensures var t := Apply(s, GrantAnswers(i, outcome));
            && t.calls == s.calls[i := Finished]
            && t.f == Fields(if outcome.Some? then outcome else s.f.current, s.f.pending)
            && t.revoked == s.revoked
  {
  }

  /** A retry that succeeds strikes its grant off, one that fails changes nothing. */
  lemma {:induction false} RetryDecides(s: System, id: GrantId, ok: bool)
    requires id in s.f.pending
    ensures var t := Apply(s, RetryAnswers(id, ok));
            if ok then t == s.(f := Fields(s.f.current, s.f.pending - {id}), revoked := s.revoked + {id}) else t == s
  {
  }

  // ── When that happens ─────────────────────────────────────────────────────

  predicate Acquiring(c: Call) {
    c.Requesting? || (c.Releasing? && c.acquiring)
  }

  predicate AcquireInFlight(s: System) {
    exists i :: 0 <= i < |s.calls| && Acquiring(s.calls[i])
  }

  /** No `acquire` is called while another one is under way. */
  predicate OneAtATime(s: System, events: seq<Event>)
    decreases |events|
  {
    events == [] || ((events[0] == CallAcquire ==> !AcquireInFlight(s)) && OneAtATime(Apply(s, events[0]), events[1..]))
  }

  /** At most one acquire is under way, and while it is there is no current grant. */
  ghost predicate Sequential(s: System) {
    && (forall i, j :: 0 <= i < j < |s.calls| ==> !Acquiring(s.calls[i]) || !Acquiring(s.calls[j]))
    && (AcquireInFlight(s) ==> s.f.current.None?)
    && s.overwritten == {}
  }

  lemma {:induction false} StepKeepsSequential(s: System, e: Event)
    requires Sequential(s) && (e == CallAcquire ==> !AcquireInFlight(s))
    ensures Sequential(Apply(s, e))
  {
    var t := Apply(s, e);
    if e.GrantAnswers? && t != s {
      assert Acquiring(s.calls[e.call]);
      assert forall i :: 0 <= i < |s.calls| && Acquiring(s.calls[i]) ==> i == e.call;
    } else if AcquireInFlight(t) && !e.CallAcquire? {
      var i :| 0 <= i < |t.calls| && Acquiring(t.calls[i]);
      assert i < |s.calls| && Acquiring(s.calls[i]);
    }
  }

  lemma {:induction false} RunKeepsSequential(s: System, events: seq<Event>)
    requires Sequential(s) && OneAtATime(s, events)
    ensures Sequential(Exec(s, events))
    decreases |events|
  {
    if events == [] {
    } else {
      StepKeepsSequential(s, events[0]);
      RunKeepsSequential(Apply(s, events[0]), events[1..]);
    }
  }

  /** If acquires do not overlap, no grant is ever forgotten, however releases, retries and
      failing revocations interleave. */
  lemma {:induction false} SequentialAcquiresForgetNothing(events: seq<Event>, id: GrantId)
    requires OneAtATime(START, events)
    ensures id in Exec(START, events).issued <==> Accounted(Exec(START, events), id)
  {
    RunKeepsSequential(START, events);
    ForgottenAreOverwritten(events, id);
    RunKeepsBooks(START, events);
  }

  /** Two overlapping acquires answered one after the other forget the first grant. */
  lemma {:induction false} OverlapForgets(first: GrantId, second: GrantId)
    requires first != second
    ensures var a, b := GrantAnswers(0, Some(first)), GrantAnswers(1, Some(second));
            var s := Exec(START, [CallAcquire, CallAcquire, a, b]);
            first in s.issued && !Accounted(s, first)
  {
    var a, b := GrantAnswers(0, Some(first)), GrantAnswers(1, Some(second));
    var s1 := Begin(START, true);
    var s2 := Begin(s1, true);
    var s3 := Receive(s2, 0, first);
    var s4 := Receive(s3, 1, second);
    var events := [CallAcquire, CallAcquire, a, b];
    assert s2.calls == [Requesting, Requesting];
    assert Apply(s2, a) == s3 && Apply(s3, b) == s4;
    assert events[1..] == [CallAcquire, a, b] && [CallAcquire, a, b][1..] == [a, b] && [a, b][1..] == [b];
    assert [b][1..] == [];
    assert Exec(s3, [b]) == s4;
    assert Exec(s2, [a, b]) == s4;
    assert Exec(s1, [CallAcquire, a, b]) == s4;
    assert first in s4.overwritten;
  }
}
