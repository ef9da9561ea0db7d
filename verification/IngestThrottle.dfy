/** apps/analytics/app/rules.py (cooldown and bounded deduplication) and
    apps/analytics/app/frigate/ingestor.py (the decision that combines them). The clock and
    the hash of a signature are parameters. */
module IngestThrottle {
  import opened Common

  /** What a payload gives as its confidence; the conversion of `Unreadable` fails, and
      `Nan` is the float that compares with nothing. */
  datatype Confidence = Missing | Unreadable | Nan | Given(value: real)

  datatype Payload = Payload(
    className: Option<string>, confidence: Confidence,
    camera: Option<string>, kind: Option<string>, zone: Option<string>, direction: Option<string>,
    hash: int)

  datatype Config = Config(minConfidence: real, supported: set<string>, cooldownSec: real, cap: int)

  predicate Passes(c: Config, p: Payload) {
    && p.className.Some? && p.className.value in c.supported
    && match p.confidence
       case Missing => 0.0 >= c.minConfidence
       case Unreadable => false
       case Nan => true
       case Given(v) => v >= c.minConfidence
  }

  function Text(o: Option<string>): string {
    match o
    case None => ""
    case Some(s) => s
  }

  function ThrottleKey(p: Payload): string {
    Text(p.camera) + "|" + Text(p.kind) + "|" + Text(p.zone) + "|" + Text(p.direction)
  }

  // ── The two memories ──────────────────────────────────────────────────────

  /** A key never emitted counts as emitted at instant zero. */
  function LastOf(last: map<string, real>, key: string): real {
    if key in last then last[key] else 0.0
  }

  predicate Overflows(seen: set<int>, cap: int, hash: int) {
    hash !in seen && |seen + {hash}| > cap
  }

  function Remembered(seen: set<int>, cap: int, hash: int): set<int> {
    if Overflows(seen, cap, hash) then {hash} else seen + {hash}
  }

  class CooldownTracker {
    var last: map<string, real>

    constructor ()
      ensures last == map[]
    {
      last := map[];
    }

    method ShouldEmit(key: string, cooldownSec: real, now: real) returns (emit: bool)
      modifies this
      ensures emit <==> now - LastOf(old(last), key) >= cooldownSec
      ensures last == if emit then old(last)[key := now] else old(last)
    {
      var previous := if key in last then last[key] else 0.0;
      if now - previous < cooldownSec {
        return false;
      }
      last := last[key := now];
      emit := true;
    }

    method Reset(key: string)
      modifies this
      ensures last == old(last) - {key}
    {
      last := last - {key};
    }
  }

  class TrackDedup {
    var seen: set<int>
    const cap: int

    constructor (cap: int)
      ensures seen == {} && this.cap == cap
    {
      this.cap, seen := cap, {};
    }

    method IsNew(hash: int) returns (isNew: bool)
      modifies this
      ensures isNew <==> hash !in old(seen)
      ensures seen == Remembered(old(seen), cap, hash)
    {
      if hash in seen {
        assert seen + {hash} == seen;
        return false;
      }
      seen := seen + {hash};
      if |seen| > cap {
        seen := {};
        seen := seen + {hash};
      }
      isNew := true;
    }

    method Forget(hash: int)
      modifies this
      ensures seen == old(seen) - {hash}
    {
      seen := seen - {hash};
    }
  }

  // ── One decision ──────────────────────────────────────────────────────────

  datatype Memory = Memory(seen: set<int>, last: map<string, real>)

  predicate Accepts(c: Config, m: Memory, p: Payload, now: real) {
    && Passes(c, p) && p.hash !in m.seen
    && now - LastOf(m.last, ThrottleKey(p)) >= c.cooldownSec
  }

  function After(c: Config, m: Memory, p: Payload, now: real): Memory {
    if !Passes(c, p) then m
    else
      Memory(Remembered(m.seen, c.cap, p.hash),
             if Accepts(c, m, p, now) then m.last[ThrottleKey(p) := now] else m.last)
  }

  class IngestDecider {
    const minConfidence: real
    const supported: set<string>
    const cooldownSec: real
    const cooldowns: CooldownTracker
    const dedup: TrackDedup

    ghost function Configured(): Config {
      Config(minConfidence, supported, cooldownSec, dedup.cap)
    }

    ghost function Remembers(): Memory
      reads cooldowns, dedup
    {
      Memory(dedup.seen, cooldowns.last)
    }

    constructor (c: Config)
      ensures Configured() == c && Remembers() == Memory({}, map[])
      ensures fresh(cooldowns) && fresh(dedup)
    {
      minConfidence, supported, cooldownSec := c.minConfidence, c.supported, c.cooldownSec;
      cooldowns := new CooldownTracker();
      dedup := new TrackDedup(c.cap);
    }

    method PassesFilter(p: Payload) returns (passes: bool)
      ensures passes <==> Passes(Configured(), p)
    {
      if p.className.None? || p.className.value !in supported {
        return false;
      }
      match p.confidence
      case Missing => passes := !(0.0 < minConfidence);
      case Unreadable => passes := false;
      case Nan => passes := true;
      case Given(v) => passes := !(v < minConfidence);
    }

    method Decide(p: Payload, now: real) returns (accepted: bool)
      modifies cooldowns, dedup
      ensures accepted <==> Accepts(Configured(), old(Remembers()), p, now)
      ensures Remembers() == After(Configured(), old(Remembers()), p, now)
    {
      var passes := PassesFilter(p);
      if !passes {
        return false;
      }
      var isNew := dedup.IsNew(p.hash);
      if !isNew {
        return false;
      }
      accepted := cooldowns.ShouldEmit(ThrottleKey(p), cooldownSec, now);
    }
  }

  // ── Every run ─────────────────────────────────────────────────────────────

  datatype Op = Op(payload: Payload, now: real)

  /** What was decided, and whether the deduplication memory was emptied on the way. */
  datatype Decision = Decision(payload: Payload, now: real, accepted: bool, emptied: bool)

  datatype System = System(memory: Memory, log: seq<Decision>)

  const START := System(Memory({}, map[]), [])

  ghost function Apply(c: Config, s: System, op: Op): System {
    var p := op.payload;
    System(After(c, s.memory, p, op.now),
           s.log + [Decision(p, op.now, Accepts(c, s.memory, p, op.now),
                             Passes(c, p) && Overflows(s.memory.seen, c.cap, p.hash))])
  }

  ghost function Exec(c: Config, s: System, ops: seq<Op>): System
    decreases |ops|
  {
    if ops == [] then s else Exec(c, Apply(c, s, ops[0]), ops[1..])
  }

  // ── What the decisions say about the past ─────────────────────────────────

  /** The hashes decided on since the memory was last emptied. */
  ghost function SeenSince(c: Config, log: seq<Decision>): set<int> {
    if log == [] then {}
    else
      var d := log[|log| - 1];
      if !Passes(c, d.payload) then SeenSince(c, log[..|log| - 1])
      else if d.emptied then {d.payload.hash}
      else SeenSince(c, log[..|log| - 1]) + {d.payload.hash}
  }

  /** The instant of the last accepted payload with the key; zero when there is none. */
  ghost function LastAccepted(log: seq<Decision>, key: string): real {
    if log == [] then 0.0
    else
      var d := log[|log| - 1];
      if d.accepted && ThrottleKey(d.payload) == key then d.now else LastAccepted(log[..|log| - 1], key)
  }

  /** A decision follows from the earlier ones alone. */
  ghost predicate Justified(c: Config, log: seq<Decision>, j: nat)
    requires j < |log|
  {
    var d, past := log[j], log[..j];
    && (d.accepted <==>
          && Passes(c, d.payload)
          && d.payload.hash !in SeenSince(c, past)
          && d.now - LastAccepted(past, ThrottleKey(d.payload)) >= c.cooldownSec)
    && (d.emptied <==> Passes(c, d.payload) && Overflows(SeenSince(c, past), c.cap, d.payload.hash))
  }

  ghost predicate MemoryIsHistory(c: Config, s: System) {
    && s.memory.seen == SeenSince(c, s.log)
    && (forall key :: LastOf(s.memory.last, key) == LastAccepted(s.log, key))
    && (forall j :: 0 <= j < |s.log| ==> Justified(c, s.log, j))
  }

  lemma {:induction false} StepKeepsHistory(c: Config, s: System, op: Op)
    requires MemoryIsHistory(c, s)
    ensures MemoryIsHistory(c, Apply(c, s, op))
  {
    var t := Apply(c, s, op);
    assert t.log[..|s.log|] == s.log;
    forall j | 0 <= j < |t.log|
      ensures Justified(c, t.log, j)
    {
      if j < |s.log| {
        assert Justified(c, s.log, j);
        assert t.log[..j] == s.log[..j];
      }
    }
    assert t.memory.seen == SeenSince(c, t.log);
    forall key
      ensures LastOf(t.memory.last, key) == LastAccepted(t.log, key)
    {
      assert LastOf(s.memory.last, key) == LastAccepted(s.log, key);
    }
  }

  lemma {:induction false} RunKeepsHistory(c: Config, s: System, ops: seq<Op>)
    requires MemoryIsHistory(c, s)
    ensures MemoryIsHistory(c, Exec(c, s, ops))
    decreases |ops|
  {
    if ops == [] {
    } else {
      StepKeepsHistory(c, s, ops[0]);
      RunKeepsHistory(c, Apply(c, s, ops[0]), ops[1..]);
    }
  }

  /** In every run each decision is the one its predecessors call for: the payload passes
      the filter, its hash was not decided on since the memory was last emptied, and the
      last accepted payload with its key is a cooldown ago. */
  lemma {:induction false} DecisionsFollowHistory(c: Config, ops: seq<Op>)
    ensures MemoryIsHistory(c, Exec(c, START, ops))
  {
    RunKeepsHistory(c, START, ops);
  }

  ghost predicate EmptiedBetween(log: seq<Decision>, i: int, j: int) {
    exists k :: 0 <= i < k < j <= |log| && log[k].emptied
  }

  lemma {:induction false} StaysSeen(c: Config, log: seq<Decision>, i: nat)
    requires i < |log| && Passes(c, log[i].payload)
    requires forall k :: i < k < |log| ==> !log[k].emptied
    ensures log[i].payload.hash in SeenSince(c, log)
  {
    var front := log[..|log| - 1];
    if i < |front| {
      StaysSeen(c, front, i);
    }
  }

  /** Once a payload passed the filter, accepted or not, its hash is accepted again only
      after the memory was emptied in between. */
  lemma {:induction false} HashAcceptedOncePerWindow(c: Config, ops: seq<Op>, i: nat, j: nat)
    requires i < j < |Exec(c, START, ops).log|
    ensures var log := Exec(c, START, ops).log;
            Passes(c, log[i].payload) && log[j].accepted && log[i].payload.hash == log[j].payload.hash ==>
              EmptiedBetween(log, i, j)
  {
    var log := Exec(c, START, ops).log;
    DecisionsFollowHistory(c, ops);
    assert Justified(c, log, j);
    if Passes(c, log[i].payload) && log[j].accepted && !EmptiedBetween(log, i, j) {
      StaysSeen(c, log[..j], i);
    }
  }

  // ── The bound ─────────────────────────────────────────────────────────────

  lemma {:induction false} RunBounded(c: Config, s: System, ops: seq<Op>)
    requires c.cap >= 1 && |s.memory.seen| <= c.cap
    ensures |Exec(c, s, ops).memory.seen| <= c.cap
    decreases |ops|
  {
    if ops == [] {
    } else {
      var hash := ops[0].payload.hash;
      if hash in s.memory.seen {
        assert s.memory.seen + {hash} == s.memory.seen;
      }
      RunBounded(c, Apply(c, s, ops[0]), ops[1..]);
    }
  }

  /** The memory never holds more than its cap. */
  lemma {:induction false} MemoryIsBounded(c: Config, ops: seq<Op>)
    requires c.cap >= 1
    ensures |Exec(c, START, ops).memory.seen| <= c.cap
  {
    RunBounded(c, START, ops);
  }

  ghost function AllHashes(log: seq<Decision>): set<int> {
    set i | 0 <= i < |log| :: log[i].payload.hash
  }

  lemma {:induction false} SeenAmongAll(c: Config, log: seq<Decision>)
    ensures SeenSince(c, log) <= AllHashes(log)
  {
    if log == [] {
    } else {
      var front, d := log[..|log| - 1], log[|log| - 1];
      SeenAmongAll(c, front);
      assert AllHashes(front) <= AllHashes(log) by {
        forall h | h in AllHashes(front)
          ensures h in AllHashes(log)
        {
          var i :| 0 <= i < |front| && front[i].payload.hash == h;
          assert log[i].payload.hash == h;
        }
      }
      assert d.payload.hash in AllHashes(log);
    }
  }

  lemma {:induction false} SubsetSize(a: set<int>, b: set<int>)
    requires a <= b
    ensures |a| <= |b|
  {
    assert b == a + (b - a);
  }

  /** A run whose hashes fit under the cap never empties the memory, so each hash is
      accepted at most once in the whole of it. */
  lemma {:induction false} HashAcceptedOnceUnderTheCap(c: Config, ops: seq<Op>, i: nat, j: nat)
    requires i < j < |Exec(c, START, ops).log| && |AllHashes(Exec(c, START, ops).log)| <= c.cap
    ensures var log := Exec(c, START, ops).log;
            !(log[i].accepted && log[j].accepted && log[i].payload.hash == log[j].payload.hash)
  {
    var log := Exec(c, START, ops).log;
    DecisionsFollowHistory(c, ops);
    HashAcceptedOncePerWindow(c, ops, i, j);
    assert Justified(c, log, i);
    if EmptiedBetween(log, i, j) {
      var k :| i < k < j && log[k].emptied;
      assert Justified(c, log, k);
      SeenAmongAll(c, log[..k]);
      var all := AllHashes(log);
      assert SeenSince(c, log[..k]) + {log[k].payload.hash} <= all by {
        forall h | h in AllHashes(log[..k])
          ensures h in all
        {
          var n :| 0 <= n < k && log[..k][n].payload.hash == h;
          assert log[n].payload.hash == h;
        }
        assert log[k].payload.hash in all;
      }
      SubsetSize(SeenSince(c, log[..k]) + {log[k].payload.hash}, all);
    }
  }

  // ── The cooldown ──────────────────────────────────────────────────────────

  /** The last accepted instant of a key is at or after every accepted one. */
  lemma {:induction false} LastIsLatest(c: Config, log: seq<Decision>, i: nat)
    requires c.cooldownSec >= 0.0 && forall j :: 0 <= j < |log| ==> Justified(c, log, j)
    requires i < |log| && log[i].accepted
    ensures log[i].now <= LastAccepted(log, ThrottleKey(log[i].payload))
  {
    var front, d := log[..|log| - 1], log[|log| - 1];
    if i < |front| {
      forall j | 0 <= j < |front|
        ensures Justified(c, front, j)
      {
        assert Justified(c, log, j);
        assert front[..j] == log[..j];
      }
      LastIsLatest(c, front, i);
      assert Justified(c, log, |log| - 1);
    }
  }

  /** Any two accepted payloads with the same key are a cooldown apart, on any clock and
      across emptied memories. */
  lemma {:induction false} AcceptedKeepCooldown(c: Config, ops: seq<Op>, i: nat, j: nat)
    requires c.cooldownSec >= 0.0 && i < j < |Exec(c, START, ops).log|
    ensures var log := Exec(c, START, ops).log;
            log[i].accepted && log[j].accepted && ThrottleKey(log[i].payload) == ThrottleKey(log[j].payload) ==>
              log[j].now - log[i].now >= c.cooldownSec
  {
    var log := Exec(c, START, ops).log;
    DecisionsFollowHistory(c, ops);
    assert Justified(c, log, j);
    if log[i].accepted {
      forall k | 0 <= k < j
        ensures Justified(c, log[..j], k)
      {
        assert Justified(c, log, k);
        assert log[..j][..k] == log[..k];
      }
      LastIsLatest(c, log[..j], i);
    }
  }

  // ── Whom a throttle key stands for ────────────────────────────────────────

  /** The same camera, type, zone and direction, where a missing text counts as empty. */
  predicate SameStream(p: Payload, q: Payload) {
    && Text(p.camera) == Text(q.camera) && Text(p.kind) == Text(q.kind)
    && Text(p.zone) == Text(q.zone) && Text(p.direction) == Text(q.direction)
  }

  predicate NoBars(p: Payload) {
    '|' !in Text(p.camera) && '|' !in Text(p.kind) && '|' !in Text(p.zone) && '|' !in Text(p.direction)
  }

  function Bars(s: string): nat {
    if s == "" then 0 else Bars(s[..|s| - 1]) + (if s[|s| - 1] == '|' then 1 else 0)
  }

  lemma {:induction false} BarsAdd(a: string, b: string)
    ensures Bars(a + b) == Bars(a) + Bars(b)
  {
    if b == "" {
      assert a + b == a;
    } else {
      BarsAdd(a, b[..|b| - 1]);
      assert (a + b)[..|a + b| - 1] == a + b[..|b| - 1];
    }
  }

  lemma {:induction false} NoBarsIsZero(s: string)
    ensures Bars(s) == 0 <==> '|' !in s
  {
    if s == "" {
    } else {
      NoBarsIsZero(s[..|s| - 1]);
      assert s == s[..|s| - 1] + [s[|s| - 1]];
    }
  }

  function Joined(a: string, b: string, c: string, d: string): string {
    a + ("|" + (b + ("|" + (c + ("|" + d)))))
  }

  lemma {:induction false} KeyIsJoined(p: Payload)
    ensures ThrottleKey(p) == Joined(Text(p.camera), Text(p.kind), Text(p.zone), Text(p.direction))
  {
  }

  lemma {:induction false} BarsOfJoined(a: string, b: string, c: string, d: string)
    ensures Bars(Joined(a, b, c, d)) == Bars(a) + Bars(b) + Bars(c) + Bars(d) + 3
  {
    BarsAdd(a, "|" + (b + ("|" + (c + ("|" + d)))));
    BarsAdd("|", b + ("|" + (c + ("|" + d))));
    BarsAdd(b, "|" + (c + ("|" + d)));
    BarsAdd("|", c + ("|" + d));
    BarsAdd(c, "|" + d);
    BarsAdd("|", d);
    OneBar();
  }

  lemma {:induction false} OneBar()
    ensures Bars("|") == 1
  {
    assert "|"[..0] == "";
  }

  lemma {:induction false} FirstBar(a: string, rest: string)
    requires '|' !in a
    ensures var s := a + ("|" + rest);
            s[|a|] == '|' && (forall i :: 0 <= i < |a| ==> s[i] != '|') && s[..|a|] == a && s[|a| + 1..] == rest
  {
  }

  lemma {:induction false} CutOnce(a: string, rest: string, a': string, rest': string)
    requires '|' !in a && '|' !in a' && a + ("|" + rest) == a' + ("|" + rest')
    ensures a == a' && rest == rest'
  {
    FirstBar(a, rest);
    FirstBar(a', rest');
  }

  lemma {:induction false} CutThrice(
    a: string, b: string, c: string, d: string, a': string, b': string, c': string, d': string)
    requires '|' !in a && '|' !in b && '|' !in c && '|' !in a' && '|' !in b' && '|' !in c'
    requires Joined(a, b, c, d) == Joined(a', b', c', d')
    ensures a == a' && b == b' && c == c' && d == d'
  {
    CutOnce(a, b + ("|" + (c + ("|" + d))), a', b' + ("|" + (c' + ("|" + d'))));
    CutOnce(b, c + ("|" + d), b', c' + ("|" + d'));
    CutOnce(c, d, c', d');
  }

  /** A payload without bars in its texts shares its key with those of its own stream only. */
  lemma {:induction false} KeyOfPlainTexts(p: Payload, q: Payload)
    requires NoBars(p)
    ensures ThrottleKey(p) == ThrottleKey(q) <==> SameStream(p, q)
  {
    KeyIsJoined(p);
    KeyIsJoined(q);
    if ThrottleKey(p) == ThrottleKey(q) {
      BarsOfJoined(Text(p.camera), Text(p.kind), Text(p.zone), Text(p.direction));
      BarsOfJoined(Text(q.camera), Text(q.kind), Text(q.zone), Text(q.direction));
      NoBarsIsZero(Text(p.camera));
      NoBarsIsZero(Text(p.kind));
      NoBarsIsZero(Text(p.zone));
      NoBarsIsZero(Text(p.direction));
      NoBarsIsZero(Text(q.camera));
      NoBarsIsZero(Text(q.kind));
      NoBarsIsZero(Text(q.zone));
      CutThrice(Text(p.camera), Text(p.kind), Text(p.zone), Text(p.direction),
                Text(q.camera), Text(q.kind), Text(q.zone), Text(q.direction));
    }
  }

  function WithTexts(p: Payload, a: string, b: string, c: string, d: string): Payload {
    p.(camera := Some(a), kind := Some(b), zone := Some(c), direction := Some(d))
  }

  lemma {:induction false} BarAt(s: string) returns (head: string, rest: string)
    requires '|' in s
    ensures s == head + ("|" + rest) && |head| < |s|
  {
    var i :| 0 <= i < |s| && s[i] == '|';
    head, rest := s[..i], s[i + 1..];
    assert s == s[..i] + ([s[i]] + s[i + 1..]);
  }

  lemma {:induction false} Regrouped(a: string, b: string, c: string)
    ensures (a + ("|" + b)) + c == a + ("|" + (b + c))
  {
  }

  /** With a bar in a text another stream has the same key. */
  lemma {:induction false} BarsCollide(p: Payload) returns (q: Payload)
    requires !NoBars(p)
    ensures ThrottleKey(p) == ThrottleKey(q) && !SameStream(p, q)
  {
    var a, b, c, d := Text(p.camera), Text(p.kind), Text(p.zone), Text(p.direction);
    KeyIsJoined(p);
    if '|' in a {
      var head, rest := BarAt(a);
      q := WithTexts(p, head, rest, b + ("|" + c), d);
      Regrouped(head, rest, "|" + (b + ("|" + (c + ("|" + d)))));
      Regrouped(b, c, "|" + d);
    } else if '|' in b {
      var head, rest := BarAt(b);
      q := WithTexts(p, a, head, rest + ("|" + c), d);
      Regrouped(head, rest, "|" + (c + ("|" + d)));
      Regrouped(rest, c, "|" + d);
    } else if '|' in c {
      var head, rest := BarAt(c);
      q := WithTexts(p, a, b, head, rest + ("|" + d));
      Regrouped(head, rest, "|" + d);
    } else {
      var head, rest := BarAt(d);
      q := WithTexts(p, a, b, c + ("|" + head), rest);
      Regrouped(c, head, "|" + rest);
    }
    KeyIsJoined(q);
  }

  /** A key stands for one camera, type, zone and direction exactly if none of the texts holds
      a bar. */
  lemma {:induction false} KeyIsOwnIff(p: Payload)
    ensures (forall q :: ThrottleKey(p) == ThrottleKey(q) ==> SameStream(p, q)) <==> NoBars(p)
  {
    if NoBars(p) {
      forall q | ThrottleKey(p) == ThrottleKey(q)
        ensures SameStream(p, q)
      {
        KeyOfPlainTexts(p, q);
      }
    } else {
      var q := BarsCollide(p);
    }
  }

  /** The instant of the last accepted payload of the same stream; zero when there is none. */
  ghost function LastOfStream(log: seq<Decision>, p: Payload): real {
    if log == [] then 0.0
    else
      var d := log[|log| - 1];
      if d.accepted && SameStream(p, d.payload) then d.now else LastOfStream(log[..|log| - 1], p)
  }

  lemma {:induction false} LastOfStreamIs(log: seq<Decision>, p: Payload)
    requires NoBars(p)
    ensures LastOfStream(log, p) == LastAccepted(log, ThrottleKey(p))
  {
    if log == [] {
    } else {
      LastOfStreamIs(log[..|log| - 1], p);
      KeyOfPlainTexts(p, log[|log| - 1].payload);
    }
  }

  /** So, without bars, payloads of different cameras, types, zones or directions never
      throttle each other: one is accepted exactly if its class is supported, its confidence
      is not below the minimum, its hash is new since the memory was emptied, and the last
      accepted payload of its own stream is a cooldown ago. */
  lemma {:induction false} StreamsAreThrottledApart(c: Config, ops: seq<Op>, j: nat)
    requires j < |Exec(c, START, ops).log| && NoBars(Exec(c, START, ops).log[j].payload)
    ensures var log := Exec(c, START, ops).log;
            var p := log[j].payload;
            log[j].accepted <==>
              && p.className.Some? && p.className.value in c.supported
              && (p.confidence.Nan? || (p.confidence.Given? && !(p.confidence.value < c.minConfidence))
                  || (p.confidence.Missing? && !(0.0 < c.minConfidence)))
              && p.hash !in SeenSince(c, log[..j])
              && !(log[j].now - LastOfStream(log[..j], p) < c.cooldownSec)
  {
    var log := Exec(c, START, ops).log;
    DecisionsFollowHistory(c, ops);
    assert Justified(c, log, j);
    LastOfStreamIs(log[..j], log[j].payload);
  }
}
