/** apps/analytics/app/pipeline.py: `PipelineManager._reconcile` brings the running camera
    workers in line with a list of camera configurations. */
module WorkerReconcile {
  import opened Common

  type Id = string

  /** A configuration: its identifier, its version stamp and everything else in it. */
  datatype Camera = Camera(cameraId: Id, updatedAt: Option<string>, settings: string)

  // ── The cameras wanted ────────────────────────────────────────────────────

  /** The keys of the dictionary built from the list, in the order it keeps them. */
  function Ids(cams: seq<Camera>): seq<Id> {
    if cams == [] then []
    else
      var front, id := Ids(cams[..|cams| - 1]), cams[|cams| - 1].cameraId;
      if id in front then front else front + [id]
  }

  function Latest(cams: seq<Camera>): map<Id, Camera> {
    if cams == [] then map[] else Latest(cams[..|cams| - 1])[cams[|cams| - 1].cameraId := cams[|cams| - 1]]
  }

  function Allowed(ids: seq<Id>, excluded: set<Id>): (r: seq<Id>)
    ensures forall id :: id in r <==> id in ids && id !in excluded
  {
    if ids == [] then []
    else Allowed(ids[..|ids| - 1], excluded) + (if ids[|ids| - 1] in excluded then [] else [ids[|ids| - 1]])
  }

  /** How many of `n` cameras a limit lets through; a negative one counts from the end. */
  function Quota(n: nat, maxWorkers: int): nat {
    if n <= maxWorkers then n
    else if maxWorkers >= 0 then maxWorkers
    else if n + maxWorkers >= 0 then n + maxWorkers
    else 0
  }

  function Wanted(cams: seq<Camera>, excluded: set<Id>, maxWorkers: int): seq<Id> {
    var allowed := Allowed(Ids(cams), excluded);
    allowed[..Quota(|allowed|, maxWorkers)]
  }

  function Desired(cams: seq<Camera>, excluded: set<Id>, maxWorkers: int): map<Id, Camera> {
    map id | id in Wanted(cams, excluded, maxWorkers) && id in Latest(cams) :: Latest(cams)[id]
  }

  // ── What the dictionary keeps, said of the list itself ────────────────────

  predicate Distinct(ids: seq<Id>) {
    forall i, j :: 0 <= i < j < |ids| ==> ids[i] != ids[j]
  }

  predicate Listed(cams: seq<Camera>, id: Id) {
    exists i :: 0 <= i < |cams| && cams[i].cameraId == id
  }

  /** `id` is first listed before `other` is. */
  ghost predicate Before(cams: seq<Camera>, id: Id, other: Id) {
    exists i :: 0 <= i < |cams| && cams[i].cameraId == id
                && forall j :: 0 <= j <= i ==> cams[j].cameraId != other
  }

  ghost predicate IsLast(cams: seq<Camera>, i: int) {
    0 <= i < |cams| && forall j :: i < j < |cams| ==> cams[j].cameraId != cams[i].cameraId
  }

  lemma {:induction false} IdsAreListed(cams: seq<Camera>, id: Id)
    ensures id in Ids(cams) <==> Listed(cams, id)
    ensures id in Latest(cams) <==> Listed(cams, id)
  {
    if cams == [] {
    } else {
      var front, last := cams[..|cams| - 1], cams[|cams| - 1];
      IdsAreListed(front, id);
      IdsAreListed(front, last.cameraId);
      if Listed(front, id) {
        var i :| 0 <= i < |front| && front[i].cameraId == id;
        assert cams[i].cameraId == id;
      }
      assert cams[|cams| - 1] == last;
    }
  }

  lemma {:induction false} LatestIsLast(cams: seq<Camera>, i: int)
    requires IsLast(cams, i)
    ensures cams[i].cameraId in Latest(cams) && Latest(cams)[cams[i].cameraId] == cams[i]
  {
    if i < |cams| - 1 {
      var front := cams[..|cams| - 1];
      assert front[i] == cams[i];
      LatestIsLast(front, i);
      assert cams[|cams| - 1].cameraId != cams[i].cameraId;
    }
  }

  /** The identifiers stand in the order of their first mention, each once. */
  lemma {:induction false} IdsInOrder(cams: seq<Camera>, a: int, b: int)
    requires 0 <= a < b < |Ids(cams)|
    ensures Before(cams, Ids(cams)[a], Ids(cams)[b])
    ensures Ids(cams)[a] != Ids(cams)[b]
  {
    var front, last := cams[..|cams| - 1], cams[|cams| - 1];
    var ids := Ids(front);
    if b < |ids| {
      IdsInOrder(front, a, b);
      BeforeExtends(front, last, ids[a], ids[b]);
      assert cams == front + [last];
    } else {
      assert ids[a] in ids && last.cameraId !in ids;
      IdsAreListed(front, ids[a]);
      IdsAreListed(front, last.cameraId);
      var i :| 0 <= i < |front| && front[i].cameraId == ids[a];
      assert cams[i] == front[i];
      forall j | 0 <= j <= i
        ensures cams[j].cameraId != last.cameraId
      {
        assert cams[j] == front[j];
      }
    }
  }

  lemma {:induction false} BeforeExtends(cams: seq<Camera>, last: Camera, id: Id, other: Id)
    requires Before(cams, id, other)
    ensures Before(cams + [last], id, other)
  {
    var all := cams + [last];
    var i :| 0 <= i < |cams| && cams[i].cameraId == id && forall j :: 0 <= j <= i ==> cams[j].cameraId != other;
    assert all[i].cameraId == id;
    forall j | 0 <= j <= i
      ensures all[j].cameraId != other
    {
      assert all[j] == cams[j];
    }
  }

  lemma {:induction false} BeforeIsStrict(cams: seq<Camera>, id: Id, other: Id)
    ensures !(Before(cams, id, other) && Before(cams, other, id))
  {
  }

  lemma {:induction false} AllowedInOrder(cams: seq<Camera>, ids: seq<Id>, excluded: set<Id>, a: int, b: int)
    requires forall i, j :: 0 <= i < j < |ids| ==> Before(cams, ids[i], ids[j]) && ids[i] != ids[j]
    requires 0 <= a < b < |Allowed(ids, excluded)|
    ensures Before(cams, Allowed(ids, excluded)[a], Allowed(ids, excluded)[b])
    ensures Allowed(ids, excluded)[a] != Allowed(ids, excluded)[b]
  {
    var front, last := ids[..|ids| - 1], ids[|ids| - 1];
    if b < |Allowed(front, excluded)| {
      AllowedInOrder(cams, front, excluded, a, b);
    } else {
      var id := Allowed(front, excluded)[a];
      assert id in front;
      var i :| 0 <= i < |front| && front[i] == id;
      assert ids[i] == id && Before(cams, ids[i], ids[|ids| - 1]);
    }
  }

  /** The allowed cameras first listed before this one. */
  ghost function Earlier(cams: seq<Camera>, excluded: set<Id>, id: Id): set<Id> {
    set i | 0 <= i < |cams| && cams[i].cameraId !in excluded && Before(cams, cams[i].cameraId, id) :: cams[i].cameraId
  }

  lemma {:induction false} PrefixIsEarlier(cams: seq<Camera>, excluded: set<Id>, k: nat)
    requires k < |Allowed(Ids(cams), excluded)|
    ensures var allowed := Allowed(Ids(cams), excluded);
            Earlier(cams, excluded, allowed[k]) == (set id | id in allowed[..k])
  {
    var allowed := Allowed(Ids(cams), excluded);
    AllOrdered(cams, excluded);
    forall id | id in Earlier(cams, excluded, allowed[k])
      ensures id in allowed[..k]
    {
      assert Listed(cams, id);
      IdsAreListed(cams, id);
      var n :| 0 <= n < |allowed| && allowed[n] == id;
      if n >= k {
        BeforeIsStrict(cams, id, allowed[k]);
      }
    }
    forall id | id in allowed[..k]
      ensures id in Earlier(cams, excluded, allowed[k])
    {
      var n :| 0 <= n < k && allowed[n] == id;
      assert Before(cams, id, allowed[k]);
      IdsAreListed(cams, id);
      var i :| 0 <= i < |cams| && cams[i].cameraId == id;
    }
  }

  lemma {:induction false} AllOrdered(cams: seq<Camera>, excluded: set<Id>)
    ensures Distinct(Allowed(Ids(cams), excluded))
    ensures var allowed := Allowed(Ids(cams), excluded);
            forall a, b :: 0 <= a < b < |allowed| ==> Before(cams, allowed[a], allowed[b])
  {
    var ids, allowed := Ids(cams), Allowed(Ids(cams), excluded);
    forall i, j | 0 <= i < j < |ids|
      ensures Before(cams, ids[i], ids[j]) && ids[i] != ids[j]
    {
      IdsInOrder(cams, i, j);
    }
    forall a, b | 0 <= a < b < |allowed|
      ensures Before(cams, allowed[a], allowed[b]) && allowed[a] != allowed[b]
    {
      AllowedInOrder(cams, ids, excluded, a, b);
    }
  }

  lemma {:induction false} DistinctCount(ids: seq<Id>)
    requires Distinct(ids)
    ensures |set id | id in ids| == |ids|
  {
    if ids == [] {
    } else {
      var front, last := ids[..|ids| - 1], ids[|ids| - 1];
      DistinctCount(front);
      assert ids == front + [last];
      assert (set id | id in ids) == (set id | id in front) + {last};
    }
  }

  lemma {:induction false} PlaceIsRank(cams: seq<Camera>, excluded: set<Id>, k: nat)
    requires k < |Allowed(Ids(cams), excluded)|
    ensures |Earlier(cams, excluded, Allowed(Ids(cams), excluded)[k])| == k
  {
    PrefixIsEarlier(cams, excluded, k);
    AllOrdered(cams, excluded);
    DistinctCount(Allowed(Ids(cams), excluded)[..k]);
  }

  lemma {:induction false} InPrefix(ids: seq<Id>, k: nat, n: nat)
    requires Distinct(ids) && k < |ids| && n <= |ids|
    ensures ids[k] in ids[..n] <==> k < n
  {
  }

  ghost function AllowedCount(cams: seq<Camera>, excluded: set<Id>): nat {
    |set i | 0 <= i < |cams| && cams[i].cameraId !in excluded :: cams[i].cameraId|
  }

  lemma {:induction false} AllowedAreCounted(cams: seq<Camera>, excluded: set<Id>)
    ensures |Allowed(Ids(cams), excluded)| == AllowedCount(cams, excluded)
  {
    var allowed := Allowed(Ids(cams), excluded);
    AllOrdered(cams, excluded);
    DistinctCount(allowed);
    forall id
      ensures id in allowed <==> id in set i | 0 <= i < |cams| && cams[i].cameraId !in excluded :: cams[i].cameraId
    {
      IdsAreListed(cams, id);
    }
    assert (set id | id in allowed) ==
           (set i | 0 <= i < |cams| && cams[i].cameraId !in excluded :: cams[i].cameraId);
  }

  lemma {:induction false} DesiredHas(cams: seq<Camera>, excluded: set<Id>, maxWorkers: int, id: Id)
    ensures id in Desired(cams, excluded, maxWorkers) <==> id in Wanted(cams, excluded, maxWorkers)
    ensures id in Wanted(cams, excluded, maxWorkers) ==> id in Allowed(Ids(cams), excluded)
    ensures id in Allowed(Ids(cams), excluded) <==> Listed(cams, id) && id !in excluded
  {
    IdsAreListed(cams, id);
  }

  lemma {:induction false} WantedByRank(cams: seq<Camera>, excluded: set<Id>, maxWorkers: int, id: Id)
    requires id in Allowed(Ids(cams), excluded)
    ensures id in Wanted(cams, excluded, maxWorkers) <==>
              |Earlier(cams, excluded, id)| < Quota(|Allowed(Ids(cams), excluded)|, maxWorkers)
  {
    var allowed := Allowed(Ids(cams), excluded);
    var k :| 0 <= k < |allowed| && allowed[k] == id;
    assert Distinct(allowed) by {
      AllOrdered(cams, excluded);
    }
    PlaceIsRank(cams, excluded, k);
    InPrefix(allowed, k, Quota(|allowed|, maxWorkers));
  }

  /** A camera is wanted exactly when it is listed, not excluded, and fewer allowed cameras
      than the limit are listed before it; a negative limit leaves that many out at the end. */
  lemma {:induction false} WantedAreTheFirst(cams: seq<Camera>, excluded: set<Id>, maxWorkers: int, id: Id)
    ensures id in Desired(cams, excluded, maxWorkers) <==>
              && Listed(cams, id) && id !in excluded
              && |Earlier(cams, excluded, id)| < if maxWorkers >= 0 then maxWorkers
                                                 else AllowedCount(cams, excluded) + maxWorkers
  {
    DesiredHas(cams, excluded, maxWorkers, id);
    AllowedAreCounted(cams, excluded);
    if id in Allowed(Ids(cams), excluded) {
      WantedByRank(cams, excluded, maxWorkers, id);
      RankIsSmall(cams, excluded, id);
    }
  }

  lemma {:induction false} RankIsSmall(cams: seq<Camera>, excluded: set<Id>, id: Id)
    requires id in Allowed(Ids(cams), excluded)
    ensures |Earlier(cams, excluded, id)| < |Allowed(Ids(cams), excluded)|
  {
    var allowed := Allowed(Ids(cams), excluded);
    var k :| 0 <= k < |allowed| && allowed[k] == id;
    PlaceIsRank(cams, excluded, k);
  }

  /** A wanted camera is wanted with the last configuration listed for it. */
  lemma {:induction false} WantedWithLastListing(cams: seq<Camera>, excluded: set<Id>, maxWorkers: int, i: int)
    requires IsLast(cams, i) && cams[i].cameraId in Desired(cams, excluded, maxWorkers)
    ensures Desired(cams, excluded, maxWorkers)[cams[i].cameraId] == cams[i]
  {
    LatestIsLast(cams, i);
  }

  lemma {:induction false} WantedOnce(cams: seq<Camera>, excluded: set<Id>, maxWorkers: int)
    ensures var ids := Wanted(cams, excluded, maxWorkers);
            && Distinct(ids)
            && (forall id :: id in ids <==> id in Desired(cams, excluded, maxWorkers))
  {
    AllOrdered(cams, excluded);
    forall id | id in Wanted(cams, excluded, maxWorkers)
      ensures id in Latest(cams)
    {
      IdsAreListed(cams, id);
    }
  }

  /** As many cameras are wanted as are allowed, but no more than the limit; a negative limit
      leaves that many out. */
  lemma {:induction false} LimitHolds(cams: seq<Camera>, excluded: set<Id>, maxWorkers: int)
    ensures var allowed, wanted := AllowedCount(cams, excluded), |Desired(cams, excluded, maxWorkers)|;
            if maxWorkers >= 0 then wanted == if allowed <= maxWorkers then allowed else maxWorkers
            else wanted == if allowed + maxWorkers > 0 then allowed + maxWorkers else 0
  {
    var ids := Wanted(cams, excluded, maxWorkers);
    WantedOnce(cams, excluded, maxWorkers);
    DistinctCount(ids);
    AllowedAreCounted(cams, excluded);
    assert Desired(cams, excluded, maxWorkers).Keys == set id | id in ids;
  }

  // ── Reconciling ───────────────────────────────────────────────────────────

  predicate Keeps(running: map<Id, Camera>, desired: map<Id, Camera>, id: Id) {
    id in running && id in desired && running[id].updatedAt == desired[id].updatedAt
  }

  /** A worker with the wanted version stays, with the configuration it was started with. */
  function Reconciled(running: map<Id, Camera>, desired: map<Id, Camera>): map<Id, Camera> {
    map id | id in desired :: if Keeps(running, desired, id) then running[id] else desired[id]
  }

  function Kept(running: map<Id, Camera>, desired: map<Id, Camera>): map<Id, Camera> {
    map id | id in running && Keeps(running, desired, id) :: running[id]
  }

  function Filled(running: map<Id, Camera>, desired: map<Id, Camera>): map<Id, Camera> {
    map id | id in desired :: if id in running then running[id] else desired[id]
  }

  lemma {:induction false} KeptAndFilled(running: map<Id, Camera>, desired: map<Id, Camera>)
    ensures Filled(Kept(running, desired), desired) == Reconciled(running, desired)
  {
  }

  /** Every worker is as wanted and none is missing. */
  predicate Settled(running: map<Id, Camera>, desired: map<Id, Camera>) {
    running.Keys == desired.Keys && forall id :: id in desired ==> Keeps(running, desired, id)
  }

  class CameraWorker {
    const cam: Camera
    var started: bool
    var stopped: bool

    constructor (cam: Camera)
      ensures this.cam == cam && !started && !stopped
    {
      this.cam, started, stopped := cam, false, false;
    }

    method Start()
      requires !started
      modifies this`started
      ensures started
    {
      started := true;
    }

    method Stop()
      modifies this`stopped
      ensures stopped
    {
      stopped := true;
    }
  }

  class PipelineManager {
    var workers: map<Id, CameraWorker>
    var excluded: set<Id>
    const maxWorkers: int

    constructor (maxWorkers: int)
      ensures Valid() && workers == map[] && excluded == {} && this.maxWorkers == maxWorkers
    {
      workers, excluded, this.maxWorkers := map[], {}, maxWorkers;
    }

    ghost predicate Valid()
      reads this
    {
      forall id :: id in workers ==> workers[id].cam.cameraId == id
    }

    ghost function Running(): map<Id, Camera>
      reads this
    {
      map id | id in workers :: workers[id].cam
    }

    method DesiredCameras(cams: seq<Camera>) returns (ids: seq<Id>, latest: map<Id, Camera>)
      ensures ids == Wanted(cams, excluded, maxWorkers) && latest == Latest(cams)
    {
      var keys: seq<Id> := [];
      latest := map[];
      var i := 0;
      while i < |cams|
        invariant 0 <= i <= |cams|
        invariant keys == Ids(cams[..i]) && latest == Latest(cams[..i])
      {
        assert cams[..i + 1][..i] == cams[..i];
        if cams[i].cameraId !in keys {
          keys := keys + [cams[i].cameraId];
        }
        latest := latest[cams[i].cameraId := cams[i]];
        i := i + 1;
      }
      assert cams[..i] == cams;
      ids := [];
      i := 0;
      while i < |keys|
        invariant 0 <= i <= |keys|
        invariant ids == Allowed(keys[..i], excluded)
      {
        assert keys[..i + 1][..i] == keys[..i];
        if keys[i] !in excluded {
          ids := ids + [keys[i]];
        }
        i := i + 1;
      }
      assert keys[..i] == keys;
      if |ids| > maxWorkers {
        var end := if maxWorkers >= 0 then maxWorkers else if |ids| + maxWorkers >= 0 then |ids| + maxWorkers else 0;
        ids := ids[..end];
      }
    }

    /** The first loop: stop and forget every worker that is not wanted as it runs. */
    method StopUnwanted(desired: map<Id, Camera>)
      requires Valid()
      modifies this`workers, set id | id in workers :: workers[id]
      ensures workers == map id | id in old(workers) && Keeps(old(Running()), desired, id) :: old(workers)[id]
      ensures Running() == Kept(old(Running()), desired)
      ensures forall id :: id in old(workers) && id in workers ==> unchanged(old(workers)[id])
      ensures forall id :: id in old(workers) && id !in workers ==> old(workers)[id].stopped
    {
      ghost var before, was := workers, Running();
      var todo := workers.Keys;
      while todo != {}
        invariant todo <= before.Keys
        invariant forall id :: id in workers <==> id in before && (id in todo || Keeps(was, desired, id))
        invariant forall id :: id in workers ==> workers[id] == before[id]
        invariant forall id :: id in before && id in workers ==> unchanged(before[id])
        invariant forall id :: id in before && id !in workers ==> before[id].stopped
        decreases todo
      {
        var id :| id in todo;
        var w := workers[id];
        assert w == before[id] && w.cam == was[id];
        if id !in desired || desired[id].updatedAt != w.cam.updatedAt {
          w.Stop();
          workers := workers - {id};
        }
        todo := todo - {id};
      }
    }

    /** The second loop: start a worker for every wanted camera without one. */
    method StartMissing(ids: seq<Id>, desired: map<Id, Camera>)
      requires Valid()
      requires forall id :: id in ids <==> id in desired
      requires forall id :: id in desired ==> desired[id].cameraId == id
      requires workers.Keys <= desired.Keys
      modifies this`workers
      ensures Valid() && workers.Keys == desired.Keys && Running() == Filled(old(Running()), desired)
      ensures forall id :: id in old(workers) ==> workers[id] == old(workers)[id]
      ensures forall id :: id in desired && id !in old(workers) ==>
                             fresh(workers[id]) && Runs(workers[id], desired[id])
    {
      ghost var before := workers;
      var i := 0;
      while i < |ids|
        invariant 0 <= i <= |ids|
        invariant Valid() && forall id :: id in workers <==> id in before || id in ids[..i]
        invariant forall id :: id in before ==> workers[id] == before[id]
        invariant forall id :: id in workers && id !in before ==>
                                 id in desired && fresh(workers[id]) && Runs(workers[id], desired[id])
      {
        var id := ids[i];
        assert id in ids && ids[..i + 1] == ids[..i] + [id];
        if id !in workers {
          var w := new CameraWorker(desired[id]);
          workers := workers[id := w];
          w.Start();
        }
        i := i + 1;
      }
      assert ids[..i] == ids;
    }

    method BringInLine(ids: seq<Id>, desired: map<Id, Camera>)
      requires Valid()
      requires forall id :: id in ids <==> id in desired
      requires forall id :: id in desired ==> desired[id].cameraId == id
      modifies this`workers, set id | id in workers :: workers[id]
      ensures Valid() && workers.Keys == desired.Keys
      ensures Running() == Reconciled(old(Running()), desired)
      ensures forall id :: id in old(workers) && Keeps(old(Running()), desired, id) ==>
                             workers[id] == old(workers)[id] && unchanged(old(workers)[id])
      ensures forall id :: id in old(workers) && !Keeps(old(Running()), desired, id) ==> old(workers)[id].stopped
      ensures forall id :: id in desired && !Keeps(old(Running()), desired, id) ==>
                             fresh(workers[id]) && Runs(workers[id], desired[id])
      ensures forall id :: id in desired ==> workers[id].cam.updatedAt == desired[id].updatedAt
      ensures Settled(old(Running()), desired) ==> workers == old(workers)
    {
      ghost var was := Running();
      StopUnwanted(desired);
      StartMissing(ids, desired);
      KeptAndFilled(was, desired);
    }

    /** Afterwards the workers are those of the wanted cameras, within the limit, each in the
        wanted version. A worker whose version is wanted is the same untouched object; every
        other old one is stopped, and every other wanted camera has a new one that runs. */
    method Reconcile(cams: seq<Camera>) returns (ghost desired: map<Id, Camera>)
      requires Valid()
      modifies this`workers, set id | id in workers :: workers[id]
      ensures desired == Desired(cams, excluded, maxWorkers)
      ensures Valid() && workers.Keys == desired.Keys && (maxWorkers >= 0 ==> |workers| <= maxWorkers)
      ensures forall id :: id in desired ==> workers[id].cam.updatedAt == desired[id].updatedAt
      ensures forall id :: id in old(workers) && Current(old(workers)[id], desired, id) ==>
                             workers[id] == old(workers)[id] && unchanged(old(workers)[id])
      ensures forall id :: id in old(workers) && !Current(old(workers)[id], desired, id) ==> old(workers)[id].stopped
      ensures forall id :: id in desired && (id in old(workers) ==> !Current(old(workers)[id], desired, id)) ==>
                             fresh(workers[id]) && Runs(workers[id], desired[id])
      ensures Settled(old(Running()), desired) ==> workers == old(workers)
    {
      var ids, latest := DesiredCameras(cams);
      PlanFits(cams, excluded, maxWorkers);
      var wanted := map id | id in ids && id in latest :: latest[id];
      desired := wanted;
      ghost var before, was := workers, Running();
      assert forall id :: id in before ==> (Keeps(was, wanted, id) <==> Current(before[id], wanted, id));
      BringInLine(ids, wanted);
      SameSize(workers, wanted);
    }
  }

  lemma {:induction false} PlanFits(cams: seq<Camera>, excluded: set<Id>, maxWorkers: int)
    ensures var ids, latest := Wanted(cams, excluded, maxWorkers), Latest(cams);
            var desired := Desired(cams, excluded, maxWorkers);
            && (map id | id in ids && id in latest :: latest[id]) == desired
            && (forall id :: id in ids <==> id in desired)
            && (forall id :: id in desired ==> desired[id].cameraId == id)
            && (maxWorkers >= 0 ==> |desired| <= maxWorkers)
  {
    WantedOnce(cams, excluded, maxWorkers);
    LatestKeyed(cams);
    LimitHolds(cams, excluded, maxWorkers);
  }

  lemma {:induction false} SameSize<T, U>(a: map<Id, T>, b: map<Id, U>)
    requires a.Keys == b.Keys
    ensures |a| == |b|
  {
    assert |a| == |a.Keys| && |b| == |b.Keys|;
  }

  /** The worker's version is the wanted one. */
  predicate Current(w: CameraWorker, desired: map<Id, Camera>, id: Id) {
    id in desired && w.cam.updatedAt == desired[id].updatedAt
  }

  ghost predicate Runs(w: CameraWorker, cam: Camera)
    reads w
  {
    w.cam == cam && w.started && !w.stopped
  }

  lemma {:induction false} LatestKeyed(cams: seq<Camera>)
    ensures forall id :: id in Latest(cams) ==> Latest(cams)[id].cameraId == id
  {
    if cams == [] {
    } else {
      LatestKeyed(cams[..|cams| - 1]);
    }
  }

  /** A second pass over the same list finds every worker as wanted, so by the contract of
      `Reconcile` it keeps the table and touches no worker. */
  lemma {:induction false} SecondPassKeepsAll(running: map<Id, Camera>, desired: map<Id, Camera>)
    ensures Settled(Reconciled(running, desired), desired)
    ensures Reconciled(Reconciled(running, desired), desired) == Reconciled(running, desired)
  {
  }

  /** Which is what the contract of `Reconcile` leaves, and what it then keeps. */
  lemma {:induction false} VersionsSettle(running: map<Id, Camera>, desired: map<Id, Camera>)
    requires running.Keys == desired.Keys
    requires forall id :: id in desired ==> running[id].updatedAt == desired[id].updatedAt
    ensures Settled(running, desired) && Reconciled(running, desired) == running
  {
  }
}
