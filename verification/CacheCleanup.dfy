/** apps/api/src/routes/recordings.ts, `runCacheCleanup`: a time-to-live pass and a size
    cap over the cached recordings. */
module CacheCleanup {
  import opened Ranking

  datatype CachedFile = CachedFile(size: nat, mtime: int)

  /** The bytes of the files in `present`, named by their place in the listing. */
  function Bytes(files: seq<CachedFile>, present: set<nat>): nat {
    if files == [] then 0
    else Bytes(files[..|files| - 1], present) + (if |files| - 1 in present then files[|files| - 1].size else 0)
  }

  lemma {:induction false} BytesWithout(files: seq<CachedFile>, present: set<nat>, i: nat)
    requires i < |files| && i in present
    ensures Bytes(files, present - {i}) + files[i].size == Bytes(files, present)
  {
    if i < |files| - 1 {
      BytesWithout(files[..|files| - 1], present, i);
    } else {
      SameBytes(files[..|files| - 1], present, present - {i});
    }
  }

  lemma {:induction false} SameBytes(files: seq<CachedFile>, a: set<nat>, b: set<nat>)
    requires forall i :: 0 <= i < |files| ==> (i in a <==> i in b)
    ensures Bytes(files, a) == Bytes(files, b)
  {
    if files == [] {
    } else {
      SameBytes(files[..|files| - 1], a, b);
    }
  }

  lemma {:induction false} NoBytes(files: seq<CachedFile>, present: set<nat>)
    requires forall i :: 0 <= i < |files| ==> i !in present
    ensures Bytes(files, present) == 0
  {
    if files == [] {
    } else {
      NoBytes(files[..|files| - 1], present);
    }
  }

  /** The places of all listed files. */
  function UpTo(n: nat): (r: set<nat>)
    ensures |r| == n && forall i: nat :: i in r <==> i < n
  {
    if n == 0 then {} else UpTo(n - 1) + {n - 1}
  }

  function All(files: seq<CachedFile>): set<nat> {
    UpTo(|files|)
  }

  predicate Expired(f: CachedFile, now: int, ttlMs: int) {
    now - f.mtime > ttlMs
  }

  /** What the first pass leaves when the unlinks in `ok` succeed. */
  function AfterTtl(files: seq<CachedFile>, now: int, ttlMs: int, ok: set<nat>): set<nat> {
    set i: nat | i < |files| && !(Expired(files[i], now, ttlMs) && i in ok)
  }

  /** The first pass takes a file exactly when it is older than the limit and its unlink succeeds. */
  lemma {:induction false} TtlTakesTheOld(files: seq<CachedFile>, now: int, ttlMs: int, ok: set<nat>, i: nat)
    ensures i in AfterTtl(files, now, ttlMs, ok) <==>
              i < |files| && (files[i].mtime + ttlMs >= now || i !in ok)
  {
  }

  /** What the second pass leaves: it walks `order` and stops as soon as the cap is met. */
  function Evict(files: seq<CachedFile>, order: seq<nat>, present: set<nat>, cap: int, ok: set<nat>): set<nat> {
    if order == [] || Bytes(files, present) <= cap then present
    else Evict(files, order[1..], if order[0] in ok then present - {order[0]} else present, cap, ok)
  }

  /** The cache directory: which of the listed files are still there. */
  class CacheDir {
    var present: set<nat>

    constructor (files: seq<CachedFile>)
      ensures present == All(files)
    {
      present := UpTo(|files|);
    }

    /** An unlink of a file that is gone, or that the system refuses, fails. */
    method Unlink(i: nat, allowed: bool) returns (done: bool)
      modifies this
      ensures done <==> allowed && i in old(present)
      ensures present == if done then old(present) - {i} else old(present)
    {
      done := allowed && i in present;
      if done {
        present := present - {i};
      }
    }
  }

  ghost predicate OldestFirst(files: seq<CachedFile>, order: seq<nat>) {
    && Indices(order, |files|)
    && forall j, k :: 0 <= j < k < |order| ==> files[order[j]].mtime <= files[order[k]].mtime
  }

  method SortByMtime(files: seq<CachedFile>) returns (order: seq<nat>)
    ensures OldestFirst(files, order) && forall i: nat :: i < |files| ==> i in order
  {
    var age := seq(|files|, i requires 0 <= i < |files| => -(files[i].mtime as real));
    order := ArgsortDescending(age);
  }

  /** The files of the second pass: those whose stat still succeeds. */
  method StillThere(dir: CacheDir, files: seq<CachedFile>, order: seq<nat>) returns (left: seq<nat>)
    requires OldestFirst(files, order)
    ensures OldestFirst(files, left)
    ensures forall i :: i in left <==> i in order && i in dir.present
  {
    left := [];
    ghost var at: seq<nat> := [];
    for k := 0 to |order|
      invariant |at| == |left| && forall j :: 0 <= j < |at| ==> at[j] < k && left[j] == order[at[j]]
      invariant forall a, b :: 0 <= a < b < |at| ==> at[a] < at[b]
      invariant forall i :: i in left <==> i in order[..k] && i in dir.present
    {
      assert order[..k + 1] == order[..k] + [order[k]];
      if order[k] in dir.present {
        left := left + [order[k]];
        at := at + [k];
      }
    }
    assert order[..|order|] == order;
  }

  /** The running totals of a pass: they always account for what is on disk. */
  ghost predicate Totals(files: seq<CachedFile>, present: set<nat>, deleted: nat, freed: nat, total: nat) {
    && present <= All(files)
    && total == Bytes(files, present)
    && freed + total == Bytes(files, All(files))
    && deleted + |present| == |files|
  }

  lemma {:induction false} TotalsAfterUnlink(
    files: seq<CachedFile>, present: set<nat>, i: nat, deleted: nat, freed: nat, total: nat)
    requires Totals(files, present, deleted, freed, total) && i in present
    ensures i < |files| && files[i].size <= total
    ensures Totals(files, present - {i}, deleted + 1, freed + files[i].size, total - files[i].size)
  {
    BytesWithout(files, present, i);
  }

  method TotalBytes(files: seq<CachedFile>) returns (total: nat)
    ensures total == Bytes(files, All(files))
  {
    total := 0;
    for i := 0 to |files|
      invariant total == Bytes(files[..i], All(files))
    {
      assert files[..i + 1][..i] == files[..i];
      total := total + files[i].size;
    }
    assert files[..|files|] == files;
  }

  /** What is left after the first pass looked at the files before `n`. */
  function PartOfTtl(files: seq<CachedFile>, n: nat, now: int, ttlMs: int, ok: set<nat>): (r: set<nat>)
    ensures n == 0 ==> r == All(files)
    ensures n == |files| ==> r == AfterTtl(files, now, ttlMs, ok)
  {
    set i: nat | i < |files| && !(i < n && Expired(files[i], now, ttlMs) && i in ok)
  }

  lemma {:induction false} PartOfTtlNext(files: seq<CachedFile>, n: nat, now: int, ttlMs: int, ok: set<nat>)
    requires n < |files|
    ensures n in PartOfTtl(files, n, now, ttlMs, ok)
    ensures PartOfTtl(files, n + 1, now, ttlMs, ok) ==
              PartOfTtl(files, n, now, ttlMs, ok) - (if Expired(files[n], now, ttlMs) && n in ok then {n} else {})
  {
  }

  method TtlPass(dir: CacheDir, files: seq<CachedFile>, now: int, ttlMs: int, ok: set<nat>)
    returns (deleted: nat, freed: nat, total: nat)
    requires dir.present == All(files)
    modifies dir
    ensures dir.present == AfterTtl(files, now, ttlMs, ok)
    ensures forall i: nat :: i in dir.present <==> i < |files| && !(now - files[i].mtime > ttlMs && i in ok)
    ensures Totals(files, dir.present, deleted, freed, total)
  {
    total := TotalBytes(files);
    deleted, freed := 0, 0;
    for i := 0 to |files|
      invariant dir.present == PartOfTtl(files, i, now, ttlMs, ok)
      invariant Totals(files, dir.present, deleted, freed, total)
    {
      PartOfTtlNext(files, i, now, ttlMs, ok);
      if now - files[i].mtime > ttlMs {
        TotalsAfterUnlink(files, dir.present, i, deleted, freed, total);
        var done := dir.Unlink(i, i in ok);
        if done {
          deleted, freed, total := deleted + 1, freed + files[i].size, total - files[i].size;
        }
      }
    }
  }

  method CapPass(dir: CacheDir, files: seq<CachedFile>, order: seq<nat>, cap: int, ok: set<nat>,
                 deleted0: nat, freed0: nat, total0: nat)
    returns (deleted: nat, freed: nat, total: nat)
    requires Indices(order, |files|) && forall k :: 0 <= k < |order| ==> order[k] in dir.present
    requires Totals(files, dir.present, deleted0, freed0, total0)
    modifies dir
    ensures dir.present == Evict(files, order, old(dir.present), cap, ok)
    ensures Totals(files, dir.present, deleted, freed, total)
  {
    deleted, freed, total := deleted0, freed0, total0;
    for k := 0 to |order|
      invariant forall j :: k <= j < |order| ==> order[j] in dir.present
      invariant Totals(files, dir.present, deleted, freed, total)
      invariant Evict(files, order[k..], dir.present, cap, ok) == Evict(files, order, old(dir.present), cap, ok)
    {
      if total <= cap {
        break;
      }
      assert order[k..][1..] == order[k + 1..];
      TotalsAfterUnlink(files, dir.present, order[k], deleted, freed, total);
      var done := dir.Unlink(order[k], order[k] in ok);
      if done {
        deleted, freed, total := deleted + 1, freed + files[order[k]].size, total - files[order[k]].size;
      }
    }
  }

  /** The pass over `order` stopped as soon as the cap was met: of the files it removed, the
      one that comes last in `order` was still needed. */
  ghost predicate StoppedInTime(files: seq<CachedFile>, order: seq<nat>, before: set<nat>, left: set<nat>, cap: int) {
    left == before
    || exists k :: 0 <= k < |order| && LastRemoved(order, k, before - left) && Bytes(files, left + {order[k]}) > cap
  }

  predicate LastRemoved(order: seq<nat>, k: int, gone: set<nat>)
    requires 0 <= k < |order|
  {
    order[k] in gone && forall i :: i in gone ==> i in order[..k + 1]
  }

  /** What the sweep promises when every unlink succeeds: no expired file is left, the rest
      fits the cap, what the cap pass took is no newer than what it left, and it took nothing
      once the cap was met. */
  ghost predicate Swept(files: seq<CachedFile>, order: seq<nat>, now: int, ttlMs: int, cap: int, left: set<nat>) {
    var young := AfterTtl(files, now, ttlMs, All(files));
    && left <= young
    && (forall i :: i in left ==> i < |files| && now - files[i].mtime <= ttlMs)
    && Bytes(files, left) <= cap
    && (forall gone, kept :: gone in young - left && kept in left ==>
          gone < |files| && kept < |files| && files[gone].mtime <= files[kept].mtime)
    && StoppedInTime(files, order, young, left, cap)
  }

  /** The whole sweep; the unlinks in `ttlOk` and `capOk` are those that can succeed in
      each pass. `order` is the order in which the cap pass would go. */
  method RunCacheCleanup(dir: CacheDir, files: seq<CachedFile>, now: int, ttlMs: int, cap: int,
                         ttlOk: set<nat>, capOk: set<nat>)
    returns (deleted: nat, freed: nat, total: nat, ghost order: seq<nat>)
    requires dir.present == All(files)
    modifies dir
    ensures OldestFirst(files, order)
    ensures forall i :: i in order <==> i in AfterTtl(files, now, ttlMs, ttlOk)
    ensures dir.present == Evict(files, order, AfterTtl(files, now, ttlMs, ttlOk), cap, capOk)
    ensures freed + total == Bytes(files, All(files)) && total == Bytes(files, dir.present)
    ensures deleted + |dir.present| == |files|
    ensures cap >= 0 && ttlOk == capOk == All(files) ==> Swept(files, order, now, ttlMs, cap, dir.present)
  {
    deleted, freed, total := TtlPass(dir, files, now, ttlMs, ttlOk);
    var remaining := SortByMtime(files);
    remaining := StillThere(dir, files, remaining);
    order := remaining;
    if total > cap {
      deleted, freed, total := CapPass(dir, files, remaining, cap, capOk, deleted, freed, total);
    }
    if cap >= 0 && ttlOk == capOk == All(files) {
      CleanupPromise(files, order, now, ttlMs, cap);
    }
  }

  // ── What the cap pass promises ────────────────────────────────────────────

  predicate Covers(order: seq<nat>, ok: set<nat>, present: set<nat>) {
    forall i :: i in present ==> i in order && i in ok
  }

  lemma {:induction false} EvictOnlyRemoves(
    files: seq<CachedFile>, order: seq<nat>, present: set<nat>, cap: int, ok: set<nat>)
    ensures Evict(files, order, present, cap, ok) <= present
    ensures forall i :: i in present && i !in Evict(files, order, present, cap, ok) ==> i in order && i in ok
  {
    if order != [] && Bytes(files, present) > cap {
      EvictOnlyRemoves(files, order[1..], if order[0] in ok then present - {order[0]} else present, cap, ok);
    }
  }

  lemma {:induction false} EvictMeetsCap(
    files: seq<CachedFile>, order: seq<nat>, present: set<nat>, cap: int, ok: set<nat>)
    requires Covers(order, ok, present) && cap >= 0
    ensures Bytes(files, Evict(files, order, present, cap, ok)) <= cap
  {
    if order == [] {
      NoBytes(files, present);
    } else if Bytes(files, present) > cap {
      EvictMeetsCap(files, order[1..], if order[0] in ok then present - {order[0]} else present, cap, ok);
    }
  }

  lemma {:induction false} EvictTakesOldest(
    files: seq<CachedFile>, order: seq<nat>, present: set<nat>, cap: int, ok: set<nat>, gone: nat, kept: nat)
    requires OldestFirst(files, order) && Covers(order, ok, present)
    requires gone in present && gone !in Evict(files, order, present, cap, ok)
    requires kept in Evict(files, order, present, cap, ok)
    ensures gone < |files| && kept < |files| && files[gone].mtime <= files[kept].mtime
  {
    EvictOnlyRemoves(files, order, present, cap, ok);
    var next := present - {order[0]};
    if order[0] in ok && gone != order[0] {
      EvictTakesOldest(files, order[1..], next, cap, ok, gone, kept);
    } else if order[0] in ok {
      EvictOnlyRemoves(files, order[1..], next, cap, ok);
    } else {
      EvictTakesOldest(files, order[1..], present, cap, ok, gone, kept);
    }
  }

  /** The file removed last was still needed: with it the cap would not be met. */
  lemma {:induction false} EvictStopsInTime(
    files: seq<CachedFile>, order: seq<nat>, present: set<nat>, cap: int, ok: set<nat>)
    requires Indices(order, |files|)
    ensures StoppedInTime(files, order, present, Evict(files, order, present, cap, ok), cap)
  {
    var left := Evict(files, order, present, cap, ok);
    if left != present {
      var next := if order[0] in ok then present - {order[0]} else present;
      if left == next {
        assert next + {order[0]} == present;
        assert present - left == {order[0]};
        assert LastRemoved(order, 0, present - left);
      } else {
        EvictStopsInTime(files, order[1..], next, cap, ok);
        EvictOnlyRemoves(files, order[1..], next, cap, ok);
        var k :| 0 <= k < |order[1..]| && LastRemoved(order[1..], k, next - left)
                 && Bytes(files, left + {order[1..][k]}) > cap;
        LaterRemoved(order, k, present - left, next - left);
      }
    }
  }

  lemma {:induction false} LaterRemoved(order: seq<nat>, k: nat, gone: set<nat>, later: set<nat>)
    requires order != [] && k < |order[1..]| && LastRemoved(order[1..], k, later)
    requires later <= gone <= later + {order[0]}
    ensures LastRemoved(order, k + 1, gone)
  {
    forall i | i in gone
      ensures i in order[..k + 2]
    {
      assert order[..k + 2] == [order[0]] + order[1..][..k + 1];
    }
  }

  function Taken(order: seq<nat>, ok: set<nat>): set<nat> {
    set i | i in order && i in ok
  }

  lemma {:induction false} TakenNext(present: set<nat>, order: seq<nat>, ok: set<nat>, m: nat)
    requires order != [] && m < |order|
    ensures var next := if order[0] in ok then present - {order[0]} else present;
            present - Taken(order[..m + 1], ok) == next - Taken(order[1..][..m], ok)
  {
    assert order[..m + 1] == [order[0]] + order[1..][..m];
  }

  /** Whatever unlinks fail, the pass tries the shortest stretch of its list that meets the
      cap, or the whole list. */
  lemma {:induction false} EvictTriesShortestStretch(
    files: seq<CachedFile>, order: seq<nat>, present: set<nat>, cap: int, ok: set<nat>) returns (n: nat)
    ensures n <= |order| && Evict(files, order, present, cap, ok) == present - Taken(order[..n], ok)
    ensures forall m :: 0 <= m < n ==> Bytes(files, present - Taken(order[..m], ok)) > cap
    ensures n < |order| ==> Bytes(files, present - Taken(order[..n], ok)) <= cap
  {
    assert present - Taken(order[..0], ok) == present;
    if order == [] || Bytes(files, present) <= cap {
      n := 0;
    } else {
      var next := if order[0] in ok then present - {order[0]} else present;
      var rest := EvictTriesShortestStretch(files, order[1..], next, cap, ok);
      n := rest + 1;
      TakenNext(present, order, ok, rest);
      forall m | 0 <= m < n
        ensures Bytes(files, present - Taken(order[..m], ok)) > cap
      {
        if m > 0 {
          TakenNext(present, order, ok, m - 1);
        }
      }
    }
  }

  lemma {:induction false} CleanupPromise(
    files: seq<CachedFile>, order: seq<nat>, now: int, ttlMs: int, cap: int)
    requires cap >= 0 && OldestFirst(files, order)
    requires forall i :: i in order <==> i in AfterTtl(files, now, ttlMs, All(files))
    ensures var young := AfterTtl(files, now, ttlMs, All(files));
            Swept(files, order, now, ttlMs, cap, Evict(files, order, young, cap, All(files)))
  {
    var young := AfterTtl(files, now, ttlMs, All(files));
    var left := Evict(files, order, young, cap, All(files));
    EvictOnlyRemoves(files, order, young, cap, All(files));
    EvictMeetsCap(files, order, young, cap, All(files));
    forall gone, kept | gone in young - left && kept in left
      ensures gone < |files| && kept < |files| && files[gone].mtime <= files[kept].mtime
    {
      EvictTakesOldest(files, order, young, cap, All(files), gone, kept);
    }
    EvictStopsInTime(files, order, young, cap, All(files));
  }
}
