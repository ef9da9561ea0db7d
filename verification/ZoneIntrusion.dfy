/** apps/analytics/app/rules.py: incidents of tracks inside zones. The clock is a parameter
    of every call and need not advance unless a lemma says so. */
module ZoneIntrusion {
  import opened Common

  type Name = nat

  datatype Key = Key(camera: Name, zone: Name, track: int)

  /** The identifier text: the key and the opening instant in whole milliseconds. */
  datatype Incident = Incident(key: Key, stamp: int)

  /** Truncation toward zero. */
  function Millis(t: real): int {
    var m := t * 1000.0;
    if m >= 0.0 then m.Floor else -((-m).Floor)
  }

  datatype Occupant = Occupant(
    incident: Incident, enteredAt: real, lastSeen: real, loiteringEmitted: bool, lastReminderAt: real)

  datatype Event =
    | Intrusion(key: Key, incident: Incident)
    | Loitering(key: Key, incident: Incident, dwell: real)
    | Reminder(key: Key, incident: Incident, dwell: real)
    | Exit(key: Key, incident: Incident, dwell: real)

  // ── One sighting ──────────────────────────────────────────────────────────

  function Arrived(key: Key, now: real): Occupant {
    Occupant(Incident(key, Millis(now)), now, now, false, 0.0)
  }

  predicate Loiters(o: Occupant, now: real, loiteringSec: Option<real>) {
    loiteringSec.Some? && !o.loiteringEmitted && now - o.enteredAt >= loiteringSec.value
  }

  /** A reminder recorded at instant zero counts as none. */
  function Base(o: Occupant): real {
    if o.lastReminderAt != 0.0 then o.lastReminderAt else o.enteredAt
  }

  predicate Reminds(o: Occupant, now: real, reminderSec: Option<real>) {
    reminderSec.Some? && reminderSec.value > 0.0 && now - Base(o) >= reminderSec.value
  }

  function Seen(o: Occupant, now: real, loiteringSec: Option<real>, reminderSec: Option<real>): Occupant {
    o.(lastSeen := now,
       loiteringEmitted := o.loiteringEmitted || Loiters(o, now, loiteringSec),
       lastReminderAt := if Reminds(o, now, reminderSec) then now else o.lastReminderAt)
  }

  function SeenEvents(key: Key, o: Occupant, now: real, loiteringSec: Option<real>, reminderSec: Option<real>)
    : seq<Event>
  {
    (if Loiters(o, now, loiteringSec) then [Loitering(key, o.incident, now - o.enteredAt)] else [])
    + (if Reminds(o, now, reminderSec) then [Reminder(key, o.incident, now - o.enteredAt)] else [])
  }

  // ── The table of occupants ────────────────────────────────────────────────

  type Table = map<Key, Occupant>

  function Mark(occ: Table, key: Key, now: real, loiteringSec: Option<real>, reminderSec: Option<real>): Table {
    occ[key := if key in occ then Seen(occ[key], now, loiteringSec, reminderSec) else Arrived(key, now)]
  }

  function MarkEvents(occ: Table, key: Key, now: real, loiteringSec: Option<real>, reminderSec: Option<real>)
    : seq<Event>
  {
    if key in occ then SeenEvents(key, occ[key], now, loiteringSec, reminderSec)
    else [Intrusion(key, Arrived(key, now).incident)]
  }

  predicate Late(o: Occupant, now: real, grace: real) {
    now - o.lastSeen > grace
  }

  function Swept(occ: Table, now: real, grace: real): Table {
    map key | key in occ && !Late(occ[key], now, grace) :: occ[key]
  }

  /** `keys` names every late occupant once, in some order. */
  ghost predicate ListsLate(keys: seq<Key>, occ: Table, now: real, grace: real) {
    && Distinct(keys)
    && (forall key :: key in keys <==> key in occ && Late(occ[key], now, grace))
  }

  function ExitOf(key: Key, o: Occupant): Event {
    Exit(key, o.incident, o.lastSeen - o.enteredAt)
  }

  ghost function Exits(occ: Table, keys: seq<Key>): seq<Event>
    requires forall key :: key in keys ==> key in occ
  {
    if keys == [] then []
    else Exits(occ, keys[..|keys| - 1]) + [ExitOf(keys[|keys| - 1], occ[keys[|keys| - 1]])]
  }

  // ── The order of arrival, in which the dictionary is walked ───────────────

  predicate Distinct(keys: seq<Key>) {
    forall i, j :: 0 <= i < j < |keys| ==> keys[i] != keys[j]
  }

  /** `order` names every occupant once. */
  ghost predicate Orders(order: seq<Key>, occ: Table) {
    Distinct(order) && forall key :: key in order <==> key in occ
  }

  /** The occupants of one kind, late or not, in the order of arrival. */
  function Pick(occ: Table, order: seq<Key>, now: real, grace: real, late: bool): seq<Key> {
    if order == [] then []
    else
      var last := order[|order| - 1];
      Pick(occ, order[..|order| - 1], now, grace, late)
        + (if last in occ && Late(occ[last], now, grace) == late then [last] else [])
  }

  lemma {:induction false} PickHas(occ: Table, order: seq<Key>, now: real, grace: real, late: bool)
    requires Distinct(order)
    ensures forall key :: key in Pick(occ, order, now, grace, late) <==>
                            key in order && key in occ && Late(occ[key], now, grace) == late
    ensures Distinct(Pick(occ, order, now, grace, late))
  {
    if order == [] {
    } else {
      var front, last := order[..|order| - 1], order[|order| - 1];
      PickHas(occ, front, now, grace, late);
      assert order == front + [last] && last !in front;
    }
  }

  /** What is walked is what a sweep must list. */
  lemma {:induction false} PickListsLate(occ: Table, order: seq<Key>, now: real, grace: real)
    requires Orders(order, occ)
    ensures ListsLate(Pick(occ, order, now, grace, true), occ, now, grace)
    ensures Orders(Pick(occ, order, now, grace, false), Swept(occ, now, grace))
  {
    PickHas(occ, order, now, grace, true);
    PickHas(occ, order, now, grace, false);
  }

  function Without(occ: Table, keys: seq<Key>): Table {
    map key | key in occ && key !in keys :: occ[key]
  }

  lemma {:induction false} PopNext(occ: Table, keys: seq<Key>, i: nat)
    requires i < |keys| && Distinct(keys) && forall key :: key in keys ==> key in occ
    ensures keys[i] in Without(occ, keys[..i]) && Without(occ, keys[..i])[keys[i]] == occ[keys[i]]
    ensures Without(occ, keys[..i + 1]) == Without(occ, keys[..i]) - {keys[i]}
    ensures Exits(occ, keys[..i + 1]) == Exits(occ, keys[..i]) + [ExitOf(keys[i], occ[keys[i]])]
  {
    assert keys[i] in keys;
    assert keys[..i + 1] == keys[..i] + [keys[i]];
    assert keys[..i + 1][..i] == keys[..i];
  }

  lemma {:induction false} AllPopped(occ: Table, keys: seq<Key>, now: real, grace: real)
    requires ListsLate(keys, occ, now, grace)
    ensures Without(occ, keys) == Swept(occ, now, grace)
  {
  }

  class ZoneIntrusionTracker {
    var occ: Table
    var order: seq<Key>
    const lostGrace: real

    ghost predicate Valid()
      reads this
    {
      Orders(order, occ)
    }

    constructor (lostGraceSec: real)
      ensures Valid() && occ == map[] && order == [] && lostGrace == lostGraceSec
    {
      occ, order, lostGrace := map[], [], lostGraceSec;
    }

    method MarkInside(key: Key, now: real, loiteringSec: Option<real>, reminderSec: Option<real>)
      returns (events: seq<Event>)
      requires Valid()
      modifies this
      ensures Valid() && order == old(order) + (if key in old(occ) then [] else [key])
      ensures occ == Mark(old(occ), key, now, loiteringSec, reminderSec)
      ensures events == MarkEvents(old(occ), key, now, loiteringSec, reminderSec)
    {
      events := [];
      if key !in occ {
        var incident := Incident(key, Millis(now));
        occ := occ[key := Occupant(incident, now, now, false, 0.0)];
        order := order + [key];
        events := [Intrusion(key, incident)];
        return;
      }
      var o := occ[key].(lastSeen := now);
      var dwell := now - o.enteredAt;
      if loiteringSec.Some? && !o.loiteringEmitted && dwell >= loiteringSec.value {
        o := o.(loiteringEmitted := true);
        events := events + [Loitering(key, o.incident, dwell)];
      }
      if reminderSec.Some? && reminderSec.value > 0.0 {
        var base := if o.lastReminderAt != 0.0 then o.lastReminderAt else o.enteredAt;
        if now - base >= reminderSec.value {
          o := o.(lastReminderAt := now);
          events := events + [Reminder(key, o.incident, dwell)];
        }
      }
      occ := occ[key := o];
    }

    /** The exits come in the order in which the visits opened. */
    method SweepExits(now: real) returns (events: seq<Event>)
      requires Valid()
      modifies this
      ensures Valid() && occ == Swept(old(occ), now, lostGrace)
      ensures order == Pick(old(occ), old(order), now, lostGrace, false)
      ensures ListsLate(Pick(old(occ), old(order), now, lostGrace, true), old(occ), now, lostGrace)
      ensures events == Exits(old(occ), Pick(old(occ), old(order), now, lostGrace, true))
      ensures forall key :: key in occ ==> now - occ[key].lastSeen <= lostGrace
    {
      PickListsLate(occ, order, now, lostGrace);
      var expired := Walk(now, true);
      var left := Walk(now, false);
      events := PopAll(expired, now);
      order := left;
    }

    method PopAll(expired: seq<Key>, now: real) returns (events: seq<Event>)
      requires ListsLate(expired, occ, now, lostGrace)
      modifies this`occ
      ensures occ == Swept(old(occ), now, lostGrace)
      ensures events == Exits(old(occ), expired)
    {
      ghost var before := occ;
      events := [];
      var i := 0;
      while i < |expired|
        invariant 0 <= i <= |expired|
        invariant occ == Without(before, expired[..i])
        invariant events == Exits(before, expired[..i])
      {
        PopNext(before, expired, i);
        var key := expired[i];
        var o := occ[key];
        occ := occ - {key};
        events := events + [ExitOf(key, o)];
        i := i + 1;
      }
      assert expired[..i] == expired;
      AllPopped(before, expired, now, lostGrace);
    }

    /** The walk over the dictionary that finds the late occupants, or the others. */
    method Walk(now: real, late: bool) returns (keys: seq<Key>)
      requires Valid()
      ensures keys == Pick(occ, order, now, lostGrace, late)
    {
      keys := [];
      for i := 0 to |order|
        invariant keys == Pick(occ, order[..i], now, lostGrace, late)
      {
        assert order[..i + 1][..i] == order[..i];
        if Late(occ[order[i]], now, lostGrace) == late {
          keys := keys + [order[i]];
        }
      }
      assert order[..|order|] == order;
    }

    method ActiveIncidents() returns (n: nat)
      ensures n == |occ|
    {
      n := |occ|;
    }
  }

  // ── Every run ─────────────────────────────────────────────────────────────

  datatype Op =
    | Inside(key: Key, now: real, loiteringSec: Option<real>, reminderSec: Option<real>)
    | Exiting(now: real, keys: seq<Key>)

  /** An emitted event and the instant of the call that emitted it. */
  datatype Logged = Logged(event: Event, at: real)

  datatype System = System(occ: Table, log: seq<Logged>)

  const START := System(map[], [])

  ghost function Emitted(occ: Table, op: Op, grace: real): seq<Event> {
    match op
    case Inside(key, now, loiteringSec, reminderSec) => MarkEvents(occ, key, now, loiteringSec, reminderSec)
    case Exiting(now, keys) => if ListsLate(keys, occ, now, grace) then Exits(occ, keys) else []
  }

  ghost function Next(occ: Table, op: Op, grace: real): Table {
    match op
    case Inside(key, now, loiteringSec, reminderSec) => Mark(occ, key, now, loiteringSec, reminderSec)
    case Exiting(now, keys) => if ListsLate(keys, occ, now, grace) then Swept(occ, now, grace) else occ
  }

  ghost function Stamp(events: seq<Event>, at: real): seq<Logged> {
    if events == [] then [] else Stamp(events[..|events| - 1], at) + [Logged(events[|events| - 1], at)]
  }

  /** One call; a sweep whose listing is not one of the late occupants does nothing. */
  ghost function Apply(s: System, op: Op, grace: real): System {
    System(Next(s.occ, op, grace), s.log + Stamp(Emitted(s.occ, op, grace), op.now))
  }

  ghost function Exec(s: System, ops: seq<Op>, grace: real): System
    decreases |ops|
  {
    if ops == [] then s else Exec(Apply(s, ops[0], grace), ops[1..], grace)
  }

  /** What was emitted for one key. */
  ghost function History(log: seq<Logged>, key: Key): seq<Logged> {
    if log == [] then []
    else
      var last := log[|log| - 1];
      History(log[..|log| - 1], key) + (if last.event.key == key then [last] else [])
  }

  // ── What a reader of one key's events accepts ─────────────────────────────

  /** `base` is the instant the next reminder is counted from. */
  datatype Phase =
    | Never
    | Away(lastSighting: real)
    | Present(incident: Incident, since: real, loitered: bool, base: real)
    | Broken

  /** An intrusion opens a visit; at most one loitering and any reminders follow, then an
      exit, all with the identifier the visit opened with. */
  ghost function Read(p: Phase, e: Logged): Phase {
    match e.event
    case Intrusion(key, incident) =>
      if (p.Never? || p.Away?) && incident == Incident(key, Millis(e.at)) then Present(incident, e.at, false, e.at)
      else Broken
    case Loitering(_, incident, dwell) =>
      if p.Present? && p.incident == incident && !p.loitered && dwell == e.at - p.since then p.(loitered := true)
      else Broken
    case Reminder(_, incident, dwell) =>
      if p.Present? && p.incident == incident && dwell == e.at - p.since then p.(base := e.at) else Broken
    case Exit(_, incident, dwell) =>
      if p.Present? && p.incident == incident then Away(p.since + dwell) else Broken
  }

  ghost function Scan(h: seq<Logged>): Phase {
    if h == [] then Never else Read(Scan(h[..|h| - 1]), h[|h| - 1])
  }

  ghost function ScanFrom(p: Phase, h: seq<Logged>): Phase {
    if h == [] then p else Read(ScanFrom(p, h[..|h| - 1]), h[|h| - 1])
  }

  lemma {:induction false} ScanConcat(h: seq<Logged>, more: seq<Logged>)
    ensures Scan(h + more) == ScanFrom(Scan(h), more)
  {
    if more == [] {
      assert h + more == h;
    } else {
      ScanConcat(h, more[..|more| - 1]);
      assert (h + more)[..|h + more| - 1] == h + more[..|more| - 1];
    }
  }

  lemma {:induction false} HistoryConcat(a: seq<Logged>, b: seq<Logged>, key: Key)
    ensures History(a + b, key) == History(a, key) + History(b, key)
  {
    if b == [] {
      assert a + b == a;
    } else {
      HistoryConcat(a, b[..|b| - 1], key);
      assert (a + b)[..|a + b| - 1] == a + b[..|b| - 1];
    }
  }

  /** What one call adds to the history of a key. */
  ghost function Added(occ: Table, op: Op, grace: real, key: Key): seq<Logged> {
    match op
    case Inside(k, now, loiteringSec, reminderSec) =>
      if k == key then Stamp(MarkEvents(occ, key, now, loiteringSec, reminderSec), now) else []
    case Exiting(now, keys) =>
      if ListsLate(keys, occ, now, grace) && key in occ && Late(occ[key], now, grace)
      then [Logged(ExitOf(key, occ[key]), now)] else []
  }

  lemma {:induction false} OnlyOwn(events: seq<Event>, at: real, key: Key, other: Key)
    requires forall i :: 0 <= i < |events| ==> events[i].key == other
    ensures History(Stamp(events, at), key) == if key == other then Stamp(events, at) else []
  {
    if events == [] {
    } else {
      OnlyOwn(events[..|events| - 1], at, key, other);
      assert Stamp(events, at)[..|Stamp(events, at)| - 1] == Stamp(events[..|events| - 1], at);
    }
  }

  lemma {:induction false} LastExit(occ: Table, keys: seq<Key>, at: real)
    requires keys != [] && forall k :: k in keys ==> k in occ
    ensures var front, last := keys[..|keys| - 1], keys[|keys| - 1];
            Stamp(Exits(occ, keys), at) == Stamp(Exits(occ, front), at) + [Logged(ExitOf(last, occ[last]), at)]
  {
    var exits := Exits(occ, keys);
    assert exits[..|exits| - 1] == Exits(occ, keys[..|keys| - 1]);
  }

  lemma {:induction false} HistoryAppend(log: seq<Logged>, e: Logged, key: Key)
    ensures History(log + [e], key) == History(log, key) + (if e.event.key == key then [e] else [])
  {
    assert (log + [e])[..|log|] == log;
  }

  lemma {:induction false} ExitOnce(occ: Table, keys: seq<Key>, at: real, key: Key)
    requires forall k :: k in keys ==> k in occ
    requires Distinct(keys)
    ensures History(Stamp(Exits(occ, keys), at), key) == if key in keys then [Logged(ExitOf(key, occ[key]), at)] else []
  {
    if keys == [] {
    } else {
      var front, last := keys[..|keys| - 1], keys[|keys| - 1];
      ExitOnce(occ, front, at, key);
      LastExit(occ, keys, at);
      HistoryAppend(Stamp(Exits(occ, front), at), Logged(ExitOf(last, occ[last]), at), key);
      assert keys == front + [last];
    }
  }

  lemma {:induction false} MarkedOwn(
    occ: Table, key: Key, now: real, loiteringSec: Option<real>, reminderSec: Option<real>)
    ensures forall i :: 0 <= i < |MarkEvents(occ, key, now, loiteringSec, reminderSec)| ==>
                          MarkEvents(occ, key, now, loiteringSec, reminderSec)[i].key == key
  {
  }

  lemma {:induction false} EmittedFor(occ: Table, op: Op, grace: real, key: Key)
    ensures History(Stamp(Emitted(occ, op, grace), op.now), key) == Added(occ, op, grace, key)
  {
    match op
    case Inside(k, now, loiteringSec, reminderSec) =>
      MarkedOwn(occ, k, now, loiteringSec, reminderSec);
      OnlyOwn(MarkEvents(occ, k, now, loiteringSec, reminderSec), now, key, k);
    case Exiting(now, keys) =>
      if ListsLate(keys, occ, now, grace) {
        ExitOnce(occ, keys, now, key);
      }
  }

  lemma {:induction false} HistoryAfter(s: System, op: Op, grace: real, key: Key)
    ensures History(Apply(s, op, grace).log, key) == History(s.log, key) + Added(s.occ, op, grace, key)
  {
    HistoryConcat(s.log, Stamp(Emitted(s.occ, op, grace), op.now), key);
    EmittedFor(s.occ, op, grace, key);
  }

  // ── Visits ────────────────────────────────────────────────────────────────

  ghost function PhaseOf(s: System, key: Key): Phase {
    Scan(History(s.log, key))
  }

  lemma {:induction false} Stamped(events: seq<Event>, at: real)
    ensures |Stamp(events, at)| == |events|
    ensures forall i :: 0 <= i < |events| ==> Stamp(events, at)[i] == Logged(events[i], at)
  {
    if events == [] {
    } else {
      Stamped(events[..|events| - 1], at);
    }
  }

  lemma {:induction false} ReadOne(p: Phase, e: Logged)
    ensures ScanFrom(p, [e]) == Read(p, e)
  {
    assert [e][..|[e]| - 1] == [];
    assert ScanFrom(p, []) == p;
  }

  lemma {:induction false} ReadTwo(p: Phase, e: Logged, f: Logged)
    ensures ScanFrom(p, [e, f]) == Read(Read(p, e), f)
  {
    ReadOne(p, e);
    assert [e, f][..|[e, f]| - 1] == [e];
  }

  ghost function SeenLog(key: Key, o: Occupant, now: real, loiters: bool, reminds: bool): seq<Logged> {
    (if loiters then [Logged(Loitering(key, o.incident, now - o.enteredAt), now)] else [])
    + (if reminds then [Logged(Reminder(key, o.incident, now - o.enteredAt), now)] else [])
  }

  lemma {:induction false} SeenStamped(
    key: Key, o: Occupant, now: real, loiteringSec: Option<real>, reminderSec: Option<real>)
    ensures Stamp(SeenEvents(key, o, now, loiteringSec, reminderSec), now)
         == SeenLog(key, o, now, Loiters(o, now, loiteringSec), Reminds(o, now, reminderSec))
  {
    Stamped(SeenEvents(key, o, now, loiteringSec, reminderSec), now);
  }

  /** The events of one more sighting are read as the same visit. */
  lemma {:induction false} ReadSighting(p: Phase, key: Key, o: Occupant, now: real, loiters: bool, reminds: bool)
    requires p.Present? && p.incident == o.incident && p.since == o.enteredAt && p.loitered == o.loiteringEmitted
    requires loiters ==> !o.loiteringEmitted
    ensures ScanFrom(p, SeenLog(key, o, now, loiters, reminds)) ==
              Present(p.incident, p.since, p.loitered || loiters, if reminds then now else p.base)
  {
    var l := Logged(Loitering(key, o.incident, now - o.enteredAt), now);
    var r := Logged(Reminder(key, o.incident, now - o.enteredAt), now);
    var h := SeenLog(key, o, now, loiters, reminds);
    if loiters && reminds {
      assert h == [l, r];
      ReadTwo(p, l, r);
    } else if loiters {
      assert h == [l];
      ReadOne(p, l);
    } else if reminds {
      assert h == [r];
      ReadOne(p, r);
    }
  }

  ghost predicate InStep(s: System, key: Key) {
    var p := PhaseOf(s, key);
    if key in s.occ then
      && p.Present? && p.incident == s.occ[key].incident
      && p.since == s.occ[key].enteredAt && p.loitered == s.occ[key].loiteringEmitted
    else
      p.Never? || p.Away?
  }

  ghost function NextPhase(p: Phase, occ: Table, op: Op, grace: real, key: Key): Phase {
    ScanFrom(p, Added(occ, op, grace, key))
  }

  lemma {:induction false} PhaseAfter(s: System, op: Op, grace: real, key: Key)
    ensures PhaseOf(Apply(s, op, grace), key) == NextPhase(PhaseOf(s, key), s.occ, op, grace, key)
  {
    HistoryAfter(s, op, grace, key);
    ScanConcat(History(s.log, key), Added(s.occ, op, grace, key));
  }

  lemma {:induction false} ArrivalPhase(p: Phase, occ: Table, op: Op, grace: real, key: Key)
    requires op.Inside? && op.key == key && key !in occ && (p.Never? || p.Away?)
    ensures NextPhase(p, occ, op, grace, key) == Present(Incident(key, Millis(op.now)), op.now, false, op.now)
  {
    Stamped(MarkEvents(occ, key, op.now, op.loiteringSec, op.reminderSec), op.now);
    var e := Logged(Intrusion(key, Incident(key, Millis(op.now))), op.now);
    assert Added(occ, op, grace, key) == [e];
    ReadOne(p, e);
  }

  lemma {:induction false} ExitPhase(p: Phase, occ: Table, op: Op, grace: real, key: Key)
    requires op.Exiting? && key in occ && key !in Next(occ, op, grace)
    requires p.Present? && p.incident == occ[key].incident && p.since == occ[key].enteredAt
    ensures NextPhase(p, occ, op, grace, key) == Away(occ[key].lastSeen)
  {
    var e := Logged(ExitOf(key, occ[key]), op.now);
    assert Added(occ, op, grace, key) == [e];
    ReadOne(p, e);
  }

  /** The reader's phase after one call, case by case. */
  lemma {:induction false} PhaseStep(s: System, op: Op, grace: real, key: Key)
    requires InStep(s, key)
    ensures var p, q := PhaseOf(s, key), PhaseOf(Apply(s, op, grace), key);
            if op.Inside? && op.key == key then
              if key in s.occ then
                q == Present(p.incident, p.since,
                             Seen(s.occ[key], op.now, op.loiteringSec, op.reminderSec).loiteringEmitted,
                             if Reminds(s.occ[key], op.now, op.reminderSec) then op.now else p.base)
              else q == Present(Incident(key, Millis(op.now)), op.now, false, op.now)
            else if key in s.occ && key !in Next(s.occ, op, grace) then q == Away(s.occ[key].lastSeen)
            else q == p
  {
    var p := PhaseOf(s, key);
    PhaseAfter(s, op, grace, key);
    if op.Inside? && op.key == key {
      if key in s.occ {
        var o := s.occ[key];
        SeenStamped(key, o, op.now, op.loiteringSec, op.reminderSec);
        ReadSighting(p, key, o, op.now, Loiters(o, op.now, op.loiteringSec), Reminds(o, op.now, op.reminderSec));
      } else {
        ArrivalPhase(p, s.occ, op, grace, key);
      }
    } else if key in s.occ && key !in Next(s.occ, op, grace) {
      ExitPhase(p, s.occ, op, grace, key);
    } else {
      assert Added(s.occ, op, grace, key) == [];
    }
  }

  lemma {:induction false} StepKeepsVisits(s: System, op: Op, grace: real, key: Key)
    requires InStep(s, key)
    ensures InStep(Apply(s, op, grace), key)
  {
    PhaseStep(s, op, grace, key);
  }

  lemma {:induction false} RunKeepsVisits(s: System, ops: seq<Op>, grace: real, key: Key)
    requires InStep(s, key)
    ensures InStep(Exec(s, ops, grace), key)
    decreases |ops|
  {
    if ops == [] {
    } else {
      StepKeepsVisits(s, ops[0], grace, key);
      RunKeepsVisits(Apply(s, ops[0], grace), ops[1..], grace, key);
    }
  }

  /** In every run, whatever the clock does, the events of each key read as visits, and the
      key is inside exactly while a visit is open. */
  lemma {:induction false} EventsFormVisits(ops: seq<Op>, grace: real, key: Key)
    ensures InStep(Exec(START, ops, grace), key)
    ensures PhaseOf(Exec(START, ops, grace), key) != Broken
  {
    RunKeepsVisits(START, ops, grace, key);
  }

  // ── Counting ──────────────────────────────────────────────────────────────

  ghost function Open(log: seq<Logged>): int {
    if log == [] then 0
    else
      var e := log[|log| - 1].event;
      Open(log[..|log| - 1]) + (if e.Intrusion? then 1 else if e.Exit? then -1 else 0)
  }

  lemma {:induction false} OpenConcat(a: seq<Logged>, b: seq<Logged>)
    ensures Open(a + b) == Open(a) + Open(b)
  {
    if b == [] {
      assert a + b == a;
    } else {
      OpenConcat(a, b[..|b| - 1]);
      assert (a + b)[..|a + b| - 1] == a + b[..|b| - 1];
    }
  }

  lemma {:induction false} SightingsOpenNothing(events: seq<Event>, at: real)
    requires forall i :: 0 <= i < |events| ==> !events[i].Intrusion? && !events[i].Exit?
    ensures Open(Stamp(events, at)) == 0
  {
    if events == [] {
    } else {
      SightingsOpenNothing(events[..|events| - 1], at);
      assert Stamp(events, at)[..|Stamp(events, at)| - 1] == Stamp(events[..|events| - 1], at);
    }
  }

  lemma {:induction false} ExitsClose(occ: Table, keys: seq<Key>, at: real)
    requires forall k :: k in keys ==> k in occ
    ensures Open(Stamp(Exits(occ, keys), at)) == -|keys|
  {
    if keys == [] {
    } else {
      var front := keys[..|keys| - 1];
      ExitsClose(occ, front, at);
      assert Exits(occ, keys)[..|Exits(occ, keys)| - 1] == Exits(occ, front);
      assert Stamp(Exits(occ, keys), at)[..|Stamp(Exits(occ, keys), at)| - 1] == Stamp(Exits(occ, front), at);
    }
  }

  lemma {:induction false} DistinctCount(keys: seq<Key>)
    requires Distinct(keys)
    ensures |set key | key in keys| == |keys|
  {
    if keys == [] {
    } else {
      var front, last := keys[..|keys| - 1], keys[|keys| - 1];
      DistinctCount(front);
      assert keys == front + [last];
      assert (set key | key in keys) == (set key | key in front) + {last};
    }
  }

  lemma {:induction false} SweptCount(occ: Table, keys: seq<Key>, now: real, grace: real)
    requires ListsLate(keys, occ, now, grace)
    ensures |Swept(occ, now, grace)| == |occ| - |keys|
  {
    DistinctCount(keys);
    var gone := set key | key in keys;
    assert Swept(occ, now, grace).Keys == occ.Keys - gone;
    assert |occ.Keys - gone| == |occ.Keys| - |gone|;
  }

  lemma {:induction false} OneCounts(e: Event, at: real)
    ensures Open(Stamp([e], at)) == if e.Intrusion? then 1 else if e.Exit? then -1 else 0
  {
    Stamped([e], at);
    assert Stamp([e], at)[..0] == [];
  }

  lemma {:induction false} MarkSize(occ: Table, key: Key, o: Occupant)
    ensures |occ[key := o]| == |occ| + (if key in occ then 0 else 1)
  {
    assert occ[key := o].Keys == occ.Keys + {key};
    if key in occ {
      assert occ.Keys + {key} == occ.Keys;
    }
  }

  lemma {:induction false} MarkOpens(occ: Table, op: Op)
    requires op.Inside?
    ensures Open(Stamp(MarkEvents(occ, op.key, op.now, op.loiteringSec, op.reminderSec), op.now)) ==
              if op.key in occ then 0 else 1
  {
    var events := MarkEvents(occ, op.key, op.now, op.loiteringSec, op.reminderSec);
    if op.key in occ {
      SightingsOpenNothing(events, op.now);
    } else {
      OneCounts(events[0], op.now);
      assert events == [events[0]];
    }
  }

  lemma {:induction false} MarkCounts(s: System, op: Op, grace: real)
    requires Open(s.log) == |s.occ| && op.Inside?
    ensures Open(Apply(s, op, grace).log) == |Apply(s, op, grace).occ|
  {
    var t := Apply(s, op, grace);
    OpenConcat(s.log, Stamp(MarkEvents(s.occ, op.key, op.now, op.loiteringSec, op.reminderSec), op.now));
    MarkOpens(s.occ, op);
    MarkSize(s.occ, op.key, t.occ[op.key]);
  }

  lemma {:induction false} SweepCounts(s: System, op: Op, grace: real)
    requires Open(s.log) == |s.occ| && op.Exiting?
    ensures Open(Apply(s, op, grace).log) == |Apply(s, op, grace).occ|
  {
    OpenConcat(s.log, Stamp(Emitted(s.occ, op, grace), op.now));
    if ListsLate(op.keys, s.occ, op.now, grace) {
      ExitsClose(s.occ, op.keys, op.now);
      SweptCount(s.occ, op.keys, op.now, grace);
    }
  }

  lemma {:induction false} StepCounts(s: System, op: Op, grace: real)
    requires Open(s.log) == |s.occ|
    ensures Open(Apply(s, op, grace).log) == |Apply(s, op, grace).occ|
  {
    if op.Inside? {
      MarkCounts(s, op, grace);
    } else {
      SweepCounts(s, op, grace);
    }
  }

  lemma {:induction false} RunCounts(s: System, ops: seq<Op>, grace: real)
    requires Open(s.log) == |s.occ|
    ensures Open(Exec(s, ops, grace).log) == |Exec(s, ops, grace).occ|
    decreases |ops|
  {
    if ops == [] {
    } else {
      StepCounts(s, ops[0], grace);
      RunCounts(Apply(s, ops[0], grace), ops[1..], grace);
    }
  }

  /** In every run the intrusions minus the exits are the active incidents. */
  lemma {:induction false} ActiveIncidentsAreCounted(ops: seq<Op>, grace: real)
    ensures Open(Exec(START, ops, grace).log) == |Exec(START, ops, grace).occ|
  {
    RunCounts(START, ops, grace);
  }

  // ── With a clock that does not run backwards ──────────────────────────────

  ghost predicate NonDecreasing(ops: seq<Op>) {
    forall i, j :: 0 <= i < j < |ops| ==> ops[i].now <= ops[j].now
  }

  ghost predicate NotBefore(ops: seq<Op>, clock: real) {
    forall i :: 0 <= i < |ops| ==> ops[i].now >= clock
  }

  lemma {:induction false} ClockGoesOn(ops: seq<Op>)
    requires ops != [] && NonDecreasing(ops)
    ensures NonDecreasing(ops[1..]) && NotBefore(ops[1..], ops[0].now)
  {
    forall i | 0 <= i < |ops| - 1
      ensures ops[1..][i].now >= ops[0].now
    {
      assert ops[1..][i] == ops[i + 1];
    }
  }

  /** A visit opens only when the previous one's last sighting is more than the grace ago. */
  ghost predicate Waits(h: seq<Logged>, grace: real) {
    forall i :: 0 <= i < |h| && h[i].event.Intrusion? ==>
                  var p := Scan(h[..i]);
                  p.Away? ==> h[i].at - p.lastSighting > grace
  }

  ghost predicate OpensLate(p: Phase, e: Logged, grace: real) {
    e.event.Intrusion? && p.Away? ==> e.at - p.lastSighting > grace
  }

  lemma {:induction false} WaitsAppend(h: seq<Logged>, e: Logged, grace: real)
    requires Waits(h, grace) && OpensLate(Scan(h), e, grace)
    ensures Waits(h + [e], grace)
  {
    forall i | 0 <= i < |h + [e]| && (h + [e])[i].event.Intrusion?
      ensures var p := Scan((h + [e])[..i]);
              p.Away? ==> (h + [e])[i].at - p.lastSighting > grace
    {
      assert (h + [e])[..i] == h[..i];
      if i == |h| {
        assert h[..i] == h;
      }
    }
  }

  lemma {:induction false} WaitsConcat(h: seq<Logged>, more: seq<Logged>, grace: real)
    requires Waits(h, grace)
    requires forall i :: 0 <= i < |more| ==> !more[i].event.Intrusion?
    ensures Waits(h + more, grace)
  {
    if more == [] {
      assert h + more == h;
    } else {
      WaitsConcat(h, more[..|more| - 1], grace);
      WaitsAppend(h + more[..|more| - 1], more[|more| - 1], grace);
      assert h + more == h + more[..|more| - 1] + [more[|more| - 1]];
    }
  }

  /** What a call adds for a key holds no intrusion, unless it is a first sighting. */
  lemma {:induction false} AddedKinds(occ: Table, op: Op, grace: real, key: Key)
    ensures if op.Inside? && op.key == key && key !in occ
            then Added(occ, op, grace, key) == [Logged(Intrusion(key, Incident(key, Millis(op.now))), op.now)]
            else forall i :: 0 <= i < |Added(occ, op, grace, key)| ==> !Added(occ, op, grace, key)[i].event.Intrusion?
  {
    if op.Inside? && op.key == key {
      Stamped(MarkEvents(occ, key, op.now, op.loiteringSec, op.reminderSec), op.now);
    }
  }

  /** At instant `clock`: sightings lie in the past, and a visit that ended did so late. */
  ghost predicate Timely(s: System, clock: real, grace: real, key: Key) {
    && (key in s.occ ==> s.occ[key].enteredAt <= s.occ[key].lastSeen <= clock)
    && (key !in s.occ && PhaseOf(s, key).Away? ==> clock - PhaseOf(s, key).lastSighting > grace)
  }

  lemma {:induction false} StepKeepsTimely(s: System, op: Op, clock: real, grace: real, key: Key)
    requires InStep(s, key) && Timely(s, clock, grace, key) && clock <= op.now
    ensures Timely(Apply(s, op, grace), op.now, grace, key)
  {
    PhaseStep(s, op, grace, key);
  }

  lemma {:induction false} StepKeepsWaits(s: System, op: Op, clock: real, grace: real, key: Key)
    requires InStep(s, key) && Timely(s, clock, grace, key) && clock <= op.now
    requires Waits(History(s.log, key), grace)
    ensures Waits(History(Apply(s, op, grace).log, key), grace)
  {
    HistoryAfter(s, op, grace, key);
    AddedKinds(s.occ, op, grace, key);
    if op.Inside? && op.key == key && key !in s.occ {
      WaitsAppend(History(s.log, key), Added(s.occ, op, grace, key)[0], grace);
    } else {
      WaitsConcat(History(s.log, key), Added(s.occ, op, grace, key), grace);
    }
  }

  lemma {:induction false} RunKeepsWaits(s: System, ops: seq<Op>, clock: real, grace: real, key: Key)
    requires InStep(s, key) && Timely(s, clock, grace, key) && Waits(History(s.log, key), grace)
    requires NonDecreasing(ops) && NotBefore(ops, clock)
    ensures Waits(History(Exec(s, ops, grace).log, key), grace)
    decreases |ops|
  {
    if ops == [] {
    } else {
      StepKeepsVisits(s, ops[0], grace, key);
      StepKeepsTimely(s, ops[0], clock, grace, key);
      StepKeepsWaits(s, ops[0], clock, grace, key);
      ClockGoesOn(ops);
      RunKeepsWaits(Apply(s, ops[0], grace), ops[1..], ops[0].now, grace, key);
    }
  }

  ghost function FirstInstant(ops: seq<Op>): real {
    if ops == [] then 0.0 else ops[0].now
  }

  /** In every run on a clock that does not run backwards, a key's next intrusion comes more
      than the grace after the last sighting of its previous visit. */
  lemma {:induction false} ReentryWaitsOutTheGrace(ops: seq<Op>, grace: real, key: Key)
    requires NonDecreasing(ops)
    ensures Waits(History(Exec(START, ops, grace).log, key), grace)
  {
    RunKeepsWaits(START, ops, FirstInstant(ops), grace, key);
  }

  // ── Identifiers ───────────────────────────────────────────────────────────

  ghost predicate DistinctIds(h: seq<Logged>) {
    forall i, j :: 0 <= i < j < |h| && h[i].event.Intrusion? && h[j].event.Intrusion? ==>
                     h[i].event.incident != h[j].event.incident
  }

  /** Every opening so far lies at or after `from`, carries its own instant, and lies before
      the current visit, or more than the grace ago when there is none. */
  ghost predicate Opening(e: Logged, s: System, from: real, clock: real, grace: real, key: Key) {
    && from <= e.at <= clock
    && e.event.incident == Incident(key, Millis(e.at))
    && if key in s.occ then e.at <= s.occ[key].enteredAt <= s.occ[key].lastSeen <= clock else clock - e.at > grace
  }

  ghost predicate Openings(s: System, from: real, clock: real, grace: real, key: Key) {
    && (key in s.occ ==> s.occ[key].enteredAt <= s.occ[key].lastSeen <= clock)
    && (forall e :: e in History(s.log, key) && e.event.Intrusion? ==> Opening(e, s, from, clock, grace, key))
  }

  predicate Resolves(grace: real, from: real) {
    grace >= 0.002 || (grace >= 0.001 && from >= 0.0)
  }

  lemma {:induction false} MillisApart(a: real, b: real, grace: real, from: real)
    requires Resolves(grace, from) && from <= a && b - a > grace
    ensures Millis(a) != Millis(b)
  {
  }

  lemma {:induction false} StepKeepsOpenings(s: System, op: Op, from: real, clock: real, grace: real, key: Key)
    requires Openings(s, from, clock, grace, key) && from <= clock <= op.now
    ensures Openings(Apply(s, op, grace), from, op.now, grace, key)
  {
    HistoryAfter(s, op, grace, key);
    AddedKinds(s.occ, op, grace, key);
    var t, h := Apply(s, op, grace), History(s.log, key);
    forall e | e in History(t.log, key) && e.event.Intrusion?
      ensures Opening(e, t, from, op.now, grace, key)
    {
      if e in h {
        assert Opening(e, s, from, clock, grace, key);
      } else {
        assert e in Added(s.occ, op, grace, key);
      }
    }
  }

  lemma {:induction false} StepKeepsDistinct(s: System, op: Op, from: real, clock: real, grace: real, key: Key)
    requires Openings(s, from, clock, grace, key) && from <= clock <= op.now && Resolves(grace, from)
    requires DistinctIds(History(s.log, key))
    ensures DistinctIds(History(Apply(s, op, grace).log, key))
  {
    HistoryAfter(s, op, grace, key);
    AddedKinds(s.occ, op, grace, key);
    var h, added := History(s.log, key), Added(s.occ, op, grace, key);
    var all: seq<Logged> := h + added;
    forall i, j | 0 <= i < j < |all| && all[i].event.Intrusion? && all[j].event.Intrusion?
      ensures all[i].event.incident != all[j].event.incident
    {
      if j >= |h| {
        assert all[j] == added[j - |h|];
        assert h[i] in h && Opening(h[i], s, from, clock, grace, key);
        MillisApart(h[i].at, op.now, grace, from);
      }
    }
  }

  lemma {:induction false} RunKeepsDistinct(s: System, ops: seq<Op>, from: real, clock: real, grace: real, key: Key)
    requires Openings(s, from, clock, grace, key) && from <= clock && Resolves(grace, from)
    requires DistinctIds(History(s.log, key))
    requires NonDecreasing(ops) && NotBefore(ops, clock)
    ensures DistinctIds(History(Exec(s, ops, grace).log, key))
    decreases |ops|
  {
    if ops == [] {
    } else {
      StepKeepsOpenings(s, ops[0], from, clock, grace, key);
      StepKeepsDistinct(s, ops[0], from, clock, grace, key);
      ClockGoesOn(ops);
      RunKeepsDistinct(Apply(s, ops[0], grace), ops[1..], from, ops[0].now, grace, key);
    }
  }

  /** With a grace of two milliseconds, or of one on a clock that is never negative, no
      identifier is given to two visits of a key. */
  lemma {:induction false} IncidentsNeverRepeat(ops: seq<Op>, grace: real, key: Key)
    requires NonDecreasing(ops) && Resolves(grace, FirstInstant(ops))
    ensures DistinctIds(History(Exec(START, ops, grace).log, key))
  {
    RunKeepsDistinct(START, ops, FirstInstant(ops), FirstInstant(ops), grace, key);
  }

  /** Enter at one instant, leave and enter again at another. */
  ghost function QuickReturn(key: Key, t: real, u: real): seq<Op> {
    [Inside(key, t, None, None), Exiting(u, [key]), Inside(key, u, None, None)]
  }

  lemma {:induction false} ThreeCalls(s: System, a: Op, b: Op, c: Op, grace: real)
    ensures Exec(s, [a, b, c], grace) == Apply(Apply(Apply(s, a, grace), b, grace), c, grace)
  {
    var ops := [a, b, c];
    var s1 := Apply(s, a, grace);
    var s2 := Apply(s1, b, grace);
    assert ops[1..] == [b, c] && [b, c][1..] == [c] && [c][1..] == [];
    assert Exec(s2, [c], grace) == Apply(s2, c, grace);
    assert Exec(s1, [b, c], grace) == Exec(s2, [c], grace);
  }

  lemma {:induction false} Enters(s: System, key: Key, now: real, grace: real)
    requires s.occ == map[]
    ensures var t := Apply(s, Inside(key, now, None, None), grace);
            && t.occ == map[key := Arrived(key, now)]
            && History(t.log, key) == History(s.log, key) + [Logged(Intrusion(key, Incident(key, Millis(now))), now)]
  {
    HistoryAfter(s, Inside(key, now, None, None), grace, key);
    AddedKinds(s.occ, Inside(key, now, None, None), grace, key);
  }

  lemma {:induction false} Leaves(s: System, key: Key, now: real, grace: real)
    requires s.occ.Keys == {key} && Late(s.occ[key], now, grace)
    ensures var t := Apply(s, Exiting(now, [key]), grace);
            t.occ == map[] && History(t.log, key) == History(s.log, key) + [Logged(ExitOf(key, s.occ[key]), now)]
  {
    assert key in s.occ.Keys;
    assert ListsLate([key], s.occ, now, grace);
    HistoryAfter(s, Exiting(now, [key]), grace, key);
  }

  /** A key that returns after the grace but within the same whole millisecond. */
  lemma {:induction false} QuickReturnRepeats(key: Key, t: real, u: real, grace: real)
    requires t <= u && u - t > grace && Millis(t) == Millis(u)
    ensures !DistinctIds(History(Exec(START, QuickReturn(key, t, u), grace).log, key))
    ensures NonDecreasing(QuickReturn(key, t, u)) && NotBefore(QuickReturn(key, t, u), t)
  {
    var ops := QuickReturn(key, t, u);
    var s1 := Apply(START, ops[0], grace);
    var s2 := Apply(s1, ops[1], grace);
    ThreeCalls(START, ops[0], ops[1], ops[2], grace);
    Enters(START, key, t, grace);
    Leaves(s1, key, u, grace);
    Enters(s2, key, u, grace);
    var first := Logged(Intrusion(key, Incident(key, Millis(t))), t);
    var again := Logged(Intrusion(key, Incident(key, Millis(u))), u);
    var h := History(Apply(s2, ops[2], grace).log, key);
    assert |h| == 3 && h[0] == first && h[2] == again;
  }

  ghost predicate NeverRepeats(grace: real, key: Key) {
    forall ops :: NonDecreasing(ops) ==> DistinctIds(History(Exec(START, ops, grace).log, key))
  }

  ghost predicate NeverRepeatsFromZero(grace: real, key: Key) {
    forall ops :: NonDecreasing(ops) && NotBefore(ops, 0.0) ==> DistinctIds(History(Exec(START, ops, grace).log, key))
  }

  /** On clocks that are never negative, one millisecond of grace is exactly what keeps the
      identifiers of a key apart in all runs. */
  lemma {:induction false} OneMillisecondIsExact(grace: real, key: Key)
    ensures NeverRepeatsFromZero(grace, key) <==> grace >= 0.001
  {
    if grace >= 0.001 {
      forall ops | NonDecreasing(ops) && NotBefore(ops, 0.0)
        ensures DistinctIds(History(Exec(START, ops, grace).log, key))
      {
        IncidentsNeverRepeat(ops, grace, key);
      }
    } else {
      var u := if grace < 0.0 then 0.0 else (grace + 0.001) / 2.0;
      assert Millis(0.0) == 0 && Millis(u) == 0;
      QuickReturnRepeats(key, 0.0, u, grace);
    }
  }

  /** On any clock that does not run backwards it is two, since truncation brings the
      instants around zero together. */
  lemma {:induction false} TwoMillisecondsOnAnyClock(grace: real, key: Key)
    ensures NeverRepeats(grace, key) <==> grace >= 0.002
  {
    if grace >= 0.002 {
      forall ops | NonDecreasing(ops)
        ensures DistinctIds(History(Exec(START, ops, grace).log, key))
      {
        IncidentsNeverRepeat(ops, grace, key);
      }
    } else {
      var half := if grace < 0.0 then 0.0 else 0.0005 + grace / 4.0;
      assert Millis(-half) == 0 && Millis(half) == 0;
      QuickReturnRepeats(key, -half, half, grace);
    }
  }

  // ── Spacing of the events inside a visit ──────────────────────────────────

  /** Loitering comes at least `l` after the visit opened; a reminder at least `r` after
      the one before it, the first after the opening. */
  ghost predicate Spaced(p: Phase, e: Logged, l: real, r: real) {
    && (e.event.Loitering? && p.Present? ==> e.at - p.since >= l)
    && (e.event.Reminder? && p.Present? ==> e.at - p.base >= r)
  }

  ghost predicate AllSpaced(h: seq<Logged>, l: real, r: real) {
    forall i :: 0 <= i < |h| ==> Spaced(Scan(h[..i]), h[i], l, r)
  }

  lemma {:induction false} SpacedAppend(h: seq<Logged>, e: Logged, l: real, r: real)
    requires AllSpaced(h, l, r) && Spaced(Scan(h), e, l, r)
    ensures AllSpaced(h + [e], l, r)
  {
    forall i | 0 <= i < |h + [e]|
      ensures Spaced(Scan((h + [e])[..i]), (h + [e])[i], l, r)
    {
      assert (h + [e])[..i] == h[..i];
      if i == |h| {
        assert h[..i] == h;
      }
    }
  }

  lemma {:induction false} SpacedTwo(h: seq<Logged>, e: Logged, f: Logged, l: real, r: real)
    requires AllSpaced(h, l, r) && Spaced(Scan(h), e, l, r) && Spaced(Read(Scan(h), e), f, l, r)
    ensures AllSpaced(h + [e, f], l, r)
  {
    SpacedAppend(h, e, l, r);
    assert (h + [e])[..|h|] == h;
    SpacedAppend(h + [e], f, l, r);
    assert h + [e] + [f] == h + [e, f];
  }

  /** Every sighting asks for loitering after at least `l` and reminders every `r` or more. */
  predicate Asks(op: Op, l: real, r: real) {
    op.Inside? ==>
      && (op.loiteringSec.Some? ==> op.loiteringSec.value >= l)
      && (op.reminderSec.Some? ==> op.reminderSec.value >= r)
  }

  /** The next reminder is counted from where the reader counts it. */
  ghost predicate BaseKnown(s: System, key: Key) {
    key in s.occ && PhaseOf(s, key).Present? ==>
      && PhaseOf(s, key).base == Base(s.occ[key])
      && s.occ[key].enteredAt >= 0.0 && Base(s.occ[key]) >= 0.0
  }

  lemma {:induction false} StepKeepsBase(s: System, op: Op, grace: real, key: Key)
    requires InStep(s, key) && BaseKnown(s, key) && op.now >= 0.0
    ensures BaseKnown(Apply(s, op, grace), key)
  {
    PhaseStep(s, op, grace, key);
  }

  lemma {:induction false} SightingSpaced(h: seq<Logged>, key: Key, o: Occupant, op: Op, l: real, r: real)
    requires op.Inside? && Asks(op, l, r) && AllSpaced(h, l, r)
    requires Scan(h).Present? && Scan(h).since == o.enteredAt && Scan(h).base == Base(o)
    requires Scan(h).incident == o.incident && Scan(h).loitered == o.loiteringEmitted
    ensures AllSpaced(h + Stamp(SeenEvents(key, o, op.now, op.loiteringSec, op.reminderSec), op.now), l, r)
  {
    var e := Logged(Loitering(key, o.incident, op.now - o.enteredAt), op.now);
    var f := Logged(Reminder(key, o.incident, op.now - o.enteredAt), op.now);
    var loiters, reminds := Loiters(o, op.now, op.loiteringSec), Reminds(o, op.now, op.reminderSec);
    var added := SeenLog(key, o, op.now, loiters, reminds);
    SeenStamped(key, o, op.now, op.loiteringSec, op.reminderSec);
    if loiters && reminds {
      assert added == [e, f];
      SpacedTwo(h, e, f, l, r);
    } else if loiters {
      assert added == [e];
      SpacedAppend(h, e, l, r);
    } else if reminds {
      assert added == [f];
      SpacedAppend(h, f, l, r);
    } else {
      assert h + added == h;
    }
  }

  lemma {:induction false} StepKeepsSpacing(s: System, op: Op, grace: real, key: Key, l: real, r: real)
    requires InStep(s, key) && BaseKnown(s, key) && Asks(op, l, r) && AllSpaced(History(s.log, key), l, r)
    ensures AllSpaced(History(Apply(s, op, grace).log, key), l, r)
  {
    var h, added := History(s.log, key), Added(s.occ, op, grace, key);
    HistoryAfter(s, op, grace, key);
    AddedKinds(s.occ, op, grace, key);
    if op.Inside? && op.key == key && key in s.occ {
      SightingSpaced(h, key, s.occ[key], op, l, r);
    } else if added == [] {
      assert h + added == h;
    } else {
      assert added == [added[0]];
      SpacedAppend(h, added[0], l, r);
    }
  }

  lemma {:induction false} RunKeepsSpacing(s: System, ops: seq<Op>, grace: real, key: Key, l: real, r: real)
    requires InStep(s, key) && BaseKnown(s, key) && AllSpaced(History(s.log, key), l, r)
    requires NotBefore(ops, 0.0) && forall i :: 0 <= i < |ops| ==> Asks(ops[i], l, r)
    ensures AllSpaced(History(Exec(s, ops, grace).log, key), l, r)
    decreases |ops|
  {
    if ops == [] {
    } else {
      StepKeepsVisits(s, ops[0], grace, key);
      StepKeepsBase(s, ops[0], grace, key);
      StepKeepsSpacing(s, ops[0], grace, key, l, r);
      RunKeepsSpacing(Apply(s, ops[0], grace), ops[1..], grace, key, l, r);
    }
  }

  /** On a clock that is never negative, a visit's loitering waits for its limit and its
      reminders keep their distance, even if the clock runs backwards. */
  lemma {:induction false} RemindersKeepTheirDistance(ops: seq<Op>, grace: real, key: Key, l: real, r: real)
    requires NotBefore(ops, 0.0) && forall i :: 0 <= i < |ops| ==> Asks(ops[i], l, r)
    ensures AllSpaced(History(Exec(START, ops, grace).log, key), l, r)
  {
    RunKeepsSpacing(START, ops, grace, key, l, r);
  }

  // ── Loitering and reminders come when due ─────────────────────────────────

  predicate LoiteringDue(p: Phase, now: real, limit: Option<real>) {
    p.Present? && limit.Some? && !p.loitered && now - p.since >= limit.value
  }

  predicate ReminderDue(p: Phase, now: real, interval: Option<real>) {
    p.Present? && interval.Some? && interval.value > 0.0 && now - p.base >= interval.value
  }

  /** A sighting of a key, in terms of the events it has emitted so far: with no visit open it
      opens one; else it emits the loitering exactly if none came in this visit and the limit
      has passed since the opening, and a reminder exactly if the interval has passed since
      the one before, or since the opening. */
  lemma {:induction false} SightingDecides(s: System, op: Op, grace: real)
    requires op.Inside? && InStep(s, op.key) && BaseKnown(s, op.key)
    ensures var p, key, now := PhaseOf(s, op.key), op.key, op.now;
            Emitted(s.occ, op, grace) ==
              if p.Never? || p.Away? then [Intrusion(key, Incident(key, Millis(now)))]
              else
                (if LoiteringDue(p, now, op.loiteringSec) then [Loitering(key, p.incident, now - p.since)] else [])
                + (if ReminderDue(p, now, op.reminderSec) then [Reminder(key, p.incident, now - p.since)] else [])
  {
  }

  lemma {:induction false} RunKeepsBase(s: System, ops: seq<Op>, grace: real, key: Key)
    requires InStep(s, key) && BaseKnown(s, key) && NotBefore(ops, 0.0)
    ensures InStep(Exec(s, ops, grace), key) && BaseKnown(Exec(s, ops, grace), key)
    decreases |ops|
  {
    if ops == [] {
    } else {
      StepKeepsVisits(s, ops[0], grace, key);
      StepKeepsBase(s, ops[0], grace, key);
      RunKeepsBase(Apply(s, ops[0], grace), ops[1..], grace, key);
    }
  }

  /** So it is after every run on a clock that is never negative. */
  lemma {:induction false} SightingsFollowHistory(ops: seq<Op>, op: Op, grace: real)
    requires op.Inside? && NotBefore(ops, 0.0)
    ensures var s := Exec(START, ops, grace);
            var p, key, now := PhaseOf(s, op.key), op.key, op.now;
            Emitted(s.occ, op, grace) ==
              if p.Never? || p.Away? then [Intrusion(key, Incident(key, Millis(now)))]
              else
                (if LoiteringDue(p, now, op.loiteringSec) then [Loitering(key, p.incident, now - p.since)] else [])
                + (if ReminderDue(p, now, op.reminderSec) then [Reminder(key, p.incident, now - p.since)] else [])
  {
    RunKeepsBase(START, ops, grace, op.key);
    SightingDecides(Exec(START, ops, grace), op, grace);
  }

  /** A sweep ends exactly the open visits last seen more than the grace ago. */
  lemma {:induction false} SweepDecides(s: System, op: Op, grace: real, key: Key)
    requires op.Exiting? && ListsLate(op.keys, s.occ, op.now, grace) && InStep(s, key)
    ensures var p, q := PhaseOf(s, key), PhaseOf(Apply(s, op, grace), key);
            if p.Present? && op.now - s.occ[key].lastSeen > grace then q == Away(s.occ[key].lastSeen) else q == p
  {
    PhaseStep(s, op, grace, key);
  }

  /** The instant of the last sighting of a key in a run. */
  function LastSighting(ops: seq<Op>, key: Key): Option<real> {
    if ops == [] then None
    else
      var last := ops[|ops| - 1];
      if last.Inside? && last.key == key then Some(last.now) else LastSighting(ops[..|ops| - 1], key)
  }

  lemma {:induction false} ExecLast(s: System, ops: seq<Op>, grace: real)
    requires ops != []
    ensures Exec(s, ops, grace) == Apply(Exec(s, ops[..|ops| - 1], grace), ops[|ops| - 1], grace)
    decreases |ops|
  {
    if |ops| == 1 {
      assert ops[..0] == [] && ops[1..] == [];
    } else {
      var front := ops[..|ops| - 1];
      ExecLast(Apply(s, ops[0], grace), ops[1..], grace);
      assert front[1..] == ops[1..][..|ops[1..]| - 1];
    }
  }

  /** In every run an occupant was last seen at its last sighting. */
  lemma {:induction false} LastSeenIsLastSighting(ops: seq<Op>, grace: real, key: Key)
    ensures var occ := Exec(START, ops, grace).occ;
            key in occ ==> LastSighting(ops, key) == Some(occ[key].lastSeen)
  {
    if ops == [] {
    } else {
      LastSeenIsLastSighting(ops[..|ops| - 1], grace, key);
      ExecLast(START, ops, grace);
    }
  }
}
