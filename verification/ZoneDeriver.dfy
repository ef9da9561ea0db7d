/** apps/analytics/app/frigate/derive.py: zone crossings and occupancy derived from the
    zones each track is reported in. Zone names are numbered in their string order, which
    is the order the source sorts by. */
module ZoneDeriver {

  type Name = nat

  datatype Key = Key(camera: Name, track: Name)
  datatype Direction = In | Out
  datatype Transition = Transition(zone: Name, direction: Direction)

  lemma {:induction false} HasLeast(s: set<Name>) returns (least: Name)
    requires s != {}
    ensures least in s && forall z :: z in s ==> least <= z
    decreases |s|
  {
    var x :| x in s;
    if s == {x} {
      least := x;
    } else {
      assert s == (s - {x}) + {x};
      var y := HasLeast(s - {x});
      least := if x <= y then x else y;
    }
  }

  predicate Least(z: Name, s: set<Name>) {
    z in s && forall y :: y in s ==> z <= y
  }

  /** The crossings of one kind, by zone name. */
  ghost function Sorted(s: set<Name>, d: Direction): (r: seq<Transition>)
    ensures forall t :: t in r <==> t.zone in s && t.direction == d
    ensures forall i, j :: 0 <= i < j < |r| ==> r[i].zone < r[j].zone
  {
    if s == {} then []
    else
      assert exists z :: Least(z, s) by {
        var z := HasLeast(s);
        assert Least(z, s);
      }
      var z :| Least(z, s);
      [Transition(z, d)] + Sorted(s - {z}, d)
  }

  ghost function Crossings(before: set<Name>, after: set<Name>): seq<Transition> {
    Sorted(after - before, In) + Sorted(before - after, Out)
  }

  /** Entries before exits, each in the order of the zones' names. */
  ghost predicate InOrder(ts: seq<Transition>) {
    forall i, j :: 0 <= i < j < |ts| ==>
      (ts[i].direction == In && ts[j].direction == Out)
      || (ts[i].direction == ts[j].direction && ts[i].zone < ts[j].zone)
  }

  lemma {:induction false} CrossingsInOrder(before: set<Name>, after: set<Name>)
    ensures InOrder(Crossings(before, after))
  {
    var ins, outs := Sorted(after - before, In), Sorted(before - after, Out);
    assert forall i :: 0 <= i < |ins| ==> ins[i] in ins;
    assert forall i :: 0 <= i < |outs| ==> outs[i] in outs;
  }

  function ZonesOf(tracks: map<Key, set<Name>>, key: Key): set<Name> {
    if key in tracks then tracks[key] else {}
  }

  /** The zones a report puts the track in; an ended track is in none. */
  function Reported(zones: set<Name>, ended: bool): set<Name> {
    if ended then {} else zones
  }

  function AfterUpdate(tracks: map<Key, set<Name>>, key: Key, after: set<Name>): map<Key, set<Name>> {
    if after == {} then tracks - {key} else tracks[key := after]
  }

  function AfterForget(tracks: map<Key, set<Name>>, camera: Name): map<Key, set<Name>> {
    map key | key in tracks && key.camera != camera :: tracks[key]
  }

  function OfCamera(tracks: map<Key, set<Name>>, camera: Name): map<Key, set<Name>> {
    map key | key in tracks && key.camera == camera :: tracks[key]
  }

  function Occupants(tracks: map<Key, set<Name>>, camera: Name, zone: Name): set<Key> {
    set key | key in tracks && key.camera == camera && zone in tracks[key]
  }

  ghost function Among(tracks: map<Key, set<Name>>, seen: set<Key>, camera: Name, zone: Name): set<Key> {
    set key | key in seen && key in tracks && key.camera == camera && zone in tracks[key]
  }

  lemma {:induction false} OneMore(tracks: map<Key, set<Name>>, seen: set<Key>, key: Key, camera: Name, zone: Name)
    requires key in tracks && key !in seen
    ensures |Among(tracks, seen + {key}, camera, zone)| == |Among(tracks, seen, camera, zone)|
              + (if key.camera == camera && zone in tracks[key] then 1 else 0)
  {
    var hits := Among(tracks, seen, camera, zone);
    var next := Among(tracks, seen + {key}, camera, zone);
    if key.camera == camera && zone in tracks[key] {
      assert next == hits + {key};
    } else {
      assert next == hits;
    }
  }

  class FrigateDeriver {
    var tracks: map<Key, set<Name>>

    constructor ()
      ensures tracks == map[]
    {
      tracks := map[];
    }

    method Update(key: Key, zones: set<Name>, ended: bool) returns (transitions: seq<Transition>)
      modifies this
      ensures transitions == Crossings(ZonesOf(old(tracks), key), Reported(zones, ended))
      ensures InOrder(transitions)
      ensures tracks == AfterUpdate(old(tracks), key, Reported(zones, ended))
    {
      var prev := if key in tracks then tracks[key] else {};
      var cur := if ended then {} else zones;
      var ins := Listed(cur - prev, In);
      var outs := Listed(prev - cur, Out);
      transitions := ins + outs;
      CrossingsInOrder(prev, cur);
      if ended || cur == {} {
        tracks := tracks - {key};
      } else {
        tracks := tracks[key := cur];
      }
    }

    method Occupancy(camera: Name, zone: Name) returns (n: nat)
      ensures n == |Occupants(tracks, camera, zone)|
    {
      n := 0;
      var todo := tracks.Keys;
      ghost var seen: set<Key> := {};
      while todo != {}
        invariant seen + todo == tracks.Keys && seen !! todo
        invariant n == |Among(tracks, seen, camera, zone)|
        decreases todo
      {
        var key :| key in todo;
        OneMore(tracks, seen, key, camera, zone);
        if key.camera == camera && zone in tracks[key] {
          n := n + 1;
        }
        seen, todo := seen + {key}, todo - {key};
      }
      assert seen == tracks.Keys;
      assert Among(tracks, seen, camera, zone) == Occupants(tracks, camera, zone);
    }

    /** A limit of zero or less is never exceeded. */
    method OccupancyExceeded(camera: Name, zone: Name, limit: int) returns (exceeded: bool)
      ensures exceeded <==> limit > 0 && |Occupants(tracks, camera, zone)| > limit
    {
      if limit <= 0 {
        return false;
      }
      var n := Occupancy(camera, zone);
      exceeded := n > limit;
    }

    method ForgetCamera(camera: Name)
      modifies this
      ensures tracks == AfterForget(old(tracks), camera)
    {
      tracks := map key | key in tracks && key.camera != camera :: tracks[key];
    }
  }

  lemma {:induction false} SortedFrom(s: set<Name>, z: Name, d: Direction)
    requires Least(z, s)
    ensures Sorted(s, d) == [Transition(z, d)] + Sorted(s - {z}, d)
  {
  }

  lemma {:induction false} Regroup<T>(a: seq<T>, b: seq<T>, c: seq<T>)
    ensures a + (b + c) == a + b + c
  {
  }

  /** The loop over `sorted(zones)`. */
  method Listed(zones: set<Name>, d: Direction) returns (r: seq<Transition>)
    ensures r == Sorted(zones, d)
  {
    r := [];
    var todo := zones;
    while todo != {}
      invariant r + Sorted(todo, d) == Sorted(zones, d)
      decreases todo
    {
      ghost var least := HasLeast(todo);
      assert Least(least, todo);
      var z :| Least(z, todo);
      SortedFrom(todo, z, d);
      Regroup(r, [Transition(z, d)], Sorted(todo - {z}, d));
      r := r + [Transition(z, d)];
      todo := todo - {z};
    }
  }

  // ── Every run ─────────────────────────────────────────────────────────────

  datatype Op = Update(key: Key, zones: set<Name>, ended: bool) | Forget(camera: Name)

  /** One derived event as it was sent. */
  datatype Sent = Sent(key: Key, t: Transition)

  /** The deriver, everything it sent, and the occupants each forget dropped silently. */
  datatype System = System(tracks: map<Key, set<Name>>, log: seq<Sent>, dropped: seq<map<Key, set<Name>>>)

  const START := System(map[], [], [])

  ghost function Tag(key: Key, ts: seq<Transition>): seq<Sent> {
    seq(|ts|, i requires 0 <= i < |ts| => Sent(key, ts[i]))
  }

  ghost function Apply(s: System, op: Op): System {
    match op
    case Update(key, zones, ended) =>
      var after := Reported(zones, ended);
      s.(tracks := AfterUpdate(s.tracks, key, after),
         log := s.log + Tag(key, Crossings(ZonesOf(s.tracks, key), after)))
    case Forget(camera) =>
      s.(tracks := AfterForget(s.tracks, camera), dropped := s.dropped + [OfCamera(s.tracks, camera)])
  }

  ghost function Exec(s: System, ops: seq<Op>): System
    decreases |ops|
  {
    if ops == [] then s else Exec(Apply(s, ops[0]), ops[1..])
  }

  /** What was sent about one track and one zone. */
  ghost function History(log: seq<Sent>, key: Key, zone: Name): seq<Direction> {
    if log == [] then []
    else
      var last := log[|log| - 1];
      History(log[..|log| - 1], key, zone)
        + (if last.key == key && last.t.zone == zone then [last.t.direction] else [])
  }

  lemma {:induction false} HistoryConcat(a: seq<Sent>, b: seq<Sent>, key: Key, zone: Name)
    ensures History(a + b, key, zone) == History(a, key, zone) + History(b, key, zone)
    decreases |b|
  {
    if b == [] {
      assert a + b == a;
    } else {
      HistoryConcat(a, b[..|b| - 1], key, zone);
      assert (a + b)[..|a + b| - 1] == a + b[..|b| - 1];
    }
  }

  /** A sorted listing mentions each of its zones once. */
  lemma {:induction false} ListedOnce(key: Key, s: set<Name>, d: Direction, zone: Name)
    ensures History(Tag(key, Sorted(s, d)), key, zone) == if zone in s then [d] else []
  {
    OnceIn(key, Sorted(s, d), zone);
    if zone in s {
      assert Transition(zone, d) in Sorted(s, d);
    }
  }

  lemma {:induction false} OnceIn(key: Key, ts: seq<Transition>, zone: Name)
    requires forall i, j :: 0 <= i < j < |ts| ==> ts[i].zone < ts[j].zone
    ensures forall i :: 0 <= i < |ts| && ts[i].zone == zone ==> History(Tag(key, ts), key, zone) == [ts[i].direction]
    ensures (forall i :: 0 <= i < |ts| ==> ts[i].zone != zone) ==> History(Tag(key, ts), key, zone) == []
  {
    if ts == [] {
    } else {
      var front := ts[..|ts| - 1];
      OnceIn(key, front, zone);
      assert Tag(key, ts)[..|ts| - 1] == Tag(key, front);
    }
  }

  lemma {:induction false} NoneOfOthers(key: Key, other: Key, ts: seq<Transition>, zone: Name)
    requires key != other
    ensures History(Tag(other, ts), key, zone) == []
  {
    if ts == [] {
    } else {
      NoneOfOthers(key, other, ts[..|ts| - 1], zone);
      assert Tag(other, ts)[..|ts| - 1] == Tag(other, ts[..|ts| - 1]);
    }
  }

  /** What one update adds to the history of a track and a zone. */
  ghost function Added(before: set<Name>, after: set<Name>, zone: Name): seq<Direction> {
    if zone in after - before then [In] else if zone in before - after then [Out] else []
  }

  lemma {:induction false} CrossingsHistory(key: Key, before: set<Name>, after: set<Name>, zone: Name)
    ensures History(Tag(key, Crossings(before, after)), key, zone) == Added(before, after, zone)
  {
    var ins, outs := Sorted(after - before, In), Sorted(before - after, Out);
    assert Tag(key, ins + outs) == Tag(key, ins) + Tag(key, outs);
    HistoryConcat(Tag(key, ins), Tag(key, outs), key, zone);
    ListedOnce(key, after - before, In, zone);
    ListedOnce(key, before - after, Out, zone);
  }

  lemma {:induction false} UpdateAdds(log: seq<Sent>, key: Key, before: set<Name>, after: set<Name>, k: Key, zone: Name)
    ensures History(log + Tag(key, Crossings(before, after)), k, zone) ==
              History(log, k, zone) + (if k == key then Added(before, after, zone) else [])
  {
    var added := Tag(key, Crossings(before, after));
    HistoryConcat(log, added, k, zone);
    if k == key {
      CrossingsHistory(key, before, after, zone);
    } else {
      NoneOfOthers(k, key, Crossings(before, after), zone);
    }
  }

  ghost predicate Alternates(ds: seq<Direction>) {
    forall i :: 0 <= i < |ds| ==> ds[i] == if i % 2 == 0 then In else Out
  }

  predicate NeverForgets(ops: seq<Op>, camera: Name) {
    forall i :: 0 <= i < |ops| ==> ops[i] != Forget(camera)
  }

  /** A track is inside a zone exactly when its last crossing was an entry, and its
      crossings alternate beginning with one. */
  ghost predicate InStep(s: System, key: Key, zone: Name) {
    && Alternates(History(s.log, key, zone))
    && (zone in ZonesOf(s.tracks, key) <==> |History(s.log, key, zone)| % 2 == 1)
  }

  lemma {:induction false} AddedInStep(ds: seq<Direction>, before: set<Name>, after: set<Name>, zone: Name)
    requires Alternates(ds) && (zone in before <==> |ds| % 2 == 1)
    ensures Alternates(ds + Added(before, after, zone))
    ensures zone in after <==> |ds + Added(before, after, zone)| % 2 == 1
  {
  }

  lemma {:induction false} ZonesAfterUpdate(tracks: map<Key, set<Name>>, key: Key, after: set<Name>, k: Key)
    ensures ZonesOf(AfterUpdate(tracks, key, after), k) == if k == key then after else ZonesOf(tracks, k)
  {
  }

  lemma {:induction false} StepKeepsAlternation(s: System, op: Op, key: Key, zone: Name)
    requires InStep(s, key, zone) && op != Forget(key.camera)
    ensures InStep(Apply(s, op), key, zone)
  {
    if op.Update? {
      var before, after := ZonesOf(s.tracks, op.key), Reported(op.zones, op.ended);
      ZonesAfterUpdate(s.tracks, op.key, after, key);
      UpdateAdds(s.log, op.key, before, after, key, zone);
      if op.key == key {
        AddedInStep(History(s.log, key, zone), before, after, zone);
      } else {
        assert History(s.log, key, zone) + [] == History(s.log, key, zone);
      }
    }
  }

  lemma {:induction false} RunAlternates(s: System, ops: seq<Op>, key: Key, zone: Name)
    requires InStep(s, key, zone) && NeverForgets(ops, key.camera)
    ensures InStep(Exec(s, ops), key, zone)
    decreases |ops|
  {
    if ops == [] {
    } else {
      StepKeepsAlternation(s, ops[0], key, zone);
      RunAlternates(Apply(s, ops[0]), ops[1..], key, zone);
    }
  }

  /** In every run that does not forget the camera, the crossings of each track and zone
      alternate, starting with an entry, and the track is inside when they are odd in
      number. */
  lemma {:induction false} CrossingsAlternate(ops: seq<Op>, key: Key, zone: Name)
    requires NeverForgets(ops, key.camera)
    ensures InStep(Exec(START, ops), key, zone)
  {
    RunAlternates(START, ops, key, zone);
  }

  // ── Conservation ──────────────────────────────────────────────────────────

  /** Entries minus exits sent for a zone of a camera. */
  ghost function Balance(log: seq<Sent>, camera: Name, zone: Name): int {
    if log == [] then 0
    else
      var last := log[|log| - 1];
      Balance(log[..|log| - 1], camera, zone)
        + (if last.key.camera != camera || last.t.zone != zone then 0 else if last.t.direction == In then 1 else -1)
  }

  ghost function Lost(dropped: seq<map<Key, set<Name>>>, camera: Name, zone: Name): nat {
    if dropped == [] then 0
    else Lost(dropped[..|dropped| - 1], camera, zone) + |Occupants(dropped[|dropped| - 1], camera, zone)|
  }

  /** Of one track the balance is that of its history. */
  ghost function Net(ds: seq<Direction>): int {
    if ds == [] then 0 else Net(ds[..|ds| - 1]) + (if ds[|ds| - 1] == In then 1 else -1)
  }

  lemma {:induction false} BalanceOfTrack(log: seq<Sent>, ts: seq<Transition>, key: Key, camera: Name, zone: Name)
    ensures Balance(log + Tag(key, ts), camera, zone) == Balance(log, camera, zone)
              + (if key.camera == camera then Net(History(Tag(key, ts), key, zone)) else 0)
    decreases |ts|
  {
    var all := log + Tag(key, ts);
    if ts == [] {
      assert all == log;
    } else {
      var front := ts[..|ts| - 1];
      BalanceOfTrack(log, front, key, camera, zone);
      assert all[..|all| - 1] == log + Tag(key, front);
      assert Tag(key, ts)[..|ts| - 1] == Tag(key, front);
      var h := History(Tag(key, front), key, zone);
      assert (h + [ts[|ts| - 1].direction])[..|h|] == h;
      assert h + [] == h;
    }
  }

  lemma {:induction false} OccupantsAfterUpdate(
    tracks: map<Key, set<Name>>, key: Key, after: set<Name>, camera: Name, zone: Name)
    ensures |Occupants(AfterUpdate(tracks, key, after), camera, zone)| == |Occupants(tracks, camera, zone)|
              + (if key.camera == camera then Net(Added(ZonesOf(tracks, key), after, zone)) else 0)
  {
    var was, now := Occupants(tracks, camera, zone), Occupants(AfterUpdate(tracks, key, after), camera, zone);
    assert now == if key.camera == camera && zone in after then was + {key} else was - {key};
    assert key in was <==> key.camera == camera && zone in ZonesOf(tracks, key);
  }

  ghost predicate Balanced(s: System, camera: Name, zone: Name) {
    && Balance(s.log, camera, zone) == |Occupants(s.tracks, camera, zone)| + Lost(s.dropped, camera, zone)
    && (forall key :: key in s.tracks ==> s.tracks[key] != {})
  }

  lemma {:induction false} UpdateKeepsBalance(s: System, op: Op, camera: Name, zone: Name)
    requires Balanced(s, camera, zone) && op.Update?
    ensures Balanced(Apply(s, op), camera, zone)
  {
    var before, after := ZonesOf(s.tracks, op.key), Reported(op.zones, op.ended);
    BalanceOfTrack(s.log, Crossings(before, after), op.key, camera, zone);
    CrossingsHistory(op.key, before, after, zone);
    OccupantsAfterUpdate(s.tracks, op.key, after, camera, zone);
  }

  /** Forgetting a camera takes all of its occupants and no others. */
  lemma {:induction false} OccupantsAfterForget(tracks: map<Key, set<Name>>, forgotten: Name, camera: Name, zone: Name)
    ensures |Occupants(tracks, camera, zone)| == |Occupants(AfterForget(tracks, forgotten), camera, zone)|
              + |Occupants(OfCamera(tracks, forgotten), camera, zone)|
  {
    var left := Occupants(AfterForget(tracks, forgotten), camera, zone);
    var lost := Occupants(OfCamera(tracks, forgotten), camera, zone);
    assert Occupants(tracks, camera, zone) == left + lost && left !! lost;
  }

  lemma {:induction false} LostNext(
    dropped: seq<map<Key, set<Name>>>, more: map<Key, set<Name>>, camera: Name, zone: Name)
    ensures Lost(dropped + [more], camera, zone) == Lost(dropped, camera, zone) + |Occupants(more, camera, zone)|
  {
    assert (dropped + [more])[..|dropped|] == dropped;
  }

  lemma {:induction false} ForgetKeepsBalance(s: System, op: Op, camera: Name, zone: Name)
    requires Balanced(s, camera, zone) && op.Forget?
    ensures Balanced(Apply(s, op), camera, zone)
  {
    OccupantsAfterForget(s.tracks, op.camera, camera, zone);
    LostNext(s.dropped, OfCamera(s.tracks, op.camera), camera, zone);
  }

  lemma {:induction false} StepKeepsBalance(s: System, op: Op, camera: Name, zone: Name)
    requires Balanced(s, camera, zone)
    ensures Balanced(Apply(s, op), camera, zone)
  {
    if op.Update? {
      UpdateKeepsBalance(s, op, camera, zone);
    } else {
      ForgetKeepsBalance(s, op, camera, zone);
    }
  }

  lemma {:induction false} RunKeepsBalance(s: System, ops: seq<Op>, camera: Name, zone: Name)
    requires Balanced(s, camera, zone)
    ensures Balanced(Exec(s, ops), camera, zone)
    decreases |ops|
  {
    if ops == [] {
    } else {
      StepKeepsBalance(s, ops[0], camera, zone);
      RunKeepsBalance(Apply(s, ops[0]), ops[1..], camera, zone);
    }
  }

  /** In every run the entries sent minus the exits sent for a zone are its occupancy plus
      what forgetting the camera dropped without an exit, and no empty zone set is
      stored. */
  lemma {:induction false} OccupancyIsConserved(ops: seq<Op>, camera: Name, zone: Name)
    ensures Balanced(Exec(START, ops), camera, zone)
  {
    RunKeepsBalance(START, ops, camera, zone);
  }

  // ── Where a track is ──────────────────────────────────────────────────────

  /** The zones of the last report of a track; none once it ended or its camera was
      forgotten. */
  function LastReport(ops: seq<Op>, key: Key): set<Name> {
    if ops == [] then {}
    else
      match ops[|ops| - 1]
      case Update(k, zones, ended) =>
        if k != key then LastReport(ops[..|ops| - 1], key) else if ended then {} else zones
      case Forget(camera) => if camera == key.camera then {} else LastReport(ops[..|ops| - 1], key)
  }

  lemma {:induction false} ExecLast(s: System, ops: seq<Op>)
    requires ops != []
    ensures Exec(s, ops) == Apply(Exec(s, ops[..|ops| - 1]), ops[|ops| - 1])
    decreases |ops|
  {
    if |ops| == 1 {
      assert ops[..0] == [] && ops[1..] == [];
    } else {
      var front := ops[..|ops| - 1];
      ExecLast(Apply(s, ops[0]), ops[1..]);
      assert front[1..] == ops[1..][..|ops[1..]| - 1];
    }
  }

  /** In every run a track is in the zones of its last report, and stored only if there are
      any. */
  lemma {:induction false} TrackIsWhereReported(ops: seq<Op>, key: Key)
    ensures var tracks := Exec(START, ops).tracks;
            (if key in tracks then tracks[key] else {}) == LastReport(ops, key)
    ensures key in Exec(START, ops).tracks ==> LastReport(ops, key) != {}
  {
    if ops == [] {
    } else {
      TrackIsWhereReported(ops[..|ops| - 1], key);
      ExecLast(START, ops);
    }
  }

  /** A track that ended is in no zone, and every crossing into a zone was answered by one out
      of it. */
  lemma {:induction false} EndedTrackHasLeft(ops: seq<Op>, key: Key, zones: set<Name>, zone: Name)
    requires NeverForgets(ops, key.camera)
    ensures var s := Exec(START, ops + [Op.Update(key, zones, true)]);
            && key !in s.tracks && |History(s.log, key, zone)| % 2 == 0
            && (zone in LastReport(ops, key) ==>
                  History(s.log, key, zone) == History(Exec(START, ops).log, key, zone) + [Out])
  {
    var all := ops + [Op.Update(key, zones, true)];
    assert all[..|ops|] == ops;
    ExecLast(START, all);
    TrackIsWhereReported(ops, key);
    TrackIsWhereReported(all, key);
    CrossingsAlternate(all, key, zone);
    var s := Exec(START, ops);
    UpdateAdds(s.log, key, ZonesOf(s.tracks, key), Reported(zones, true), key, zone);
  }
}
