/** apps/analytics/app/rules.py, `CircuitBreaker` and `backoff_delay`, and the connection
    loop of `CameraWorker.run` in apps/analytics/app/pipeline.py. Frames and their analysis
    are not part of this model: an attempt is what became of one connection. */
module CameraBreaker {

  /** The connection could not be opened, was opened and later cut, or was still open when
      the worker was asked to stop. */
  datatype Attempt = Refused | Cut | Interrupted

  datatype Status = DisabledDueErrors | Stopped

  function Least(a: int, b: int): int {
    if a <= b then a else b
  }

  function BackoffDelay(failures: int, schedule: seq<int>): int
    requires schedule != []
  {
    if failures <= 0 then 0 else schedule[Least(failures - 1, |schedule| - 1)]
  }

  class CircuitBreaker {
    const maxFailures: int
    var failures: nat
    var isOpened: bool

    constructor (maxFailures: int)
      ensures this.maxFailures == maxFailures && failures == 0 && !isOpened
    {
      this.maxFailures, failures, isOpened := maxFailures, 0, false;
    }

    method RecordFailure() returns (open: bool)
      modifies this
      ensures failures == old(failures) + 1
      ensures open == isOpened == (old(isOpened) || failures >= maxFailures)
    {
      failures := failures + 1;
      if failures >= maxFailures {
        isOpened := true;
      }
      open := isOpened;
    }

    method RecordSuccess()
      modifies this
      ensures failures == 0 && !isOpened
    {
      failures, isOpened := 0, false;
    }
  }

  /** Failures since the last connection that opened; being cut is the first of them. */
  function Streak(h: seq<Attempt>): nat {
    if h == [] then 0
    else
      match h[|h| - 1]
      case Refused => Streak(h[..|h| - 1]) + 1
      case Cut => 1
      case Interrupted => 0
  }

  predicate Fails(a: Attempt) {
    a.Refused? || a.Cut?
  }

  /** The breaker opens on the failure that ends the history. */
  predicate Trips(h: seq<Attempt>, maxFailures: int) {
    h != [] && Fails(h[|h| - 1]) && Streak(h) >= maxFailures
  }

  /** The waits after each failure of a history that does not trip. */
  function Waits(h: seq<Attempt>, schedule: seq<int>): seq<int>
    requires schedule != []
  {
    if h == [] then []
    else
      Waits(h[..|h| - 1], schedule)
        + (if Fails(h[|h| - 1]) then [BackoffDelay(Streak(h), schedule)] else [])
  }

  predicate TripsAt(attempts: seq<Attempt>, n: int, maxFailures: int) {
    0 < n <= |attempts| && Trips(attempts[..n], maxFailures)
  }

  /** The attempts made until the worker is asked to stop, or disables itself earlier. */
  method Run(attempts: seq<Attempt>, maxFailures: int, schedule: seq<int>)
    returns (status: Status, used: nat, waits: seq<int>)
    requires schedule != []
    requires forall i :: 0 <= i < |attempts| - 1 ==> !attempts[i].Interrupted?
    ensures used <= |attempts|
    ensures forall n :: n < used ==> !TripsAt(attempts, n, maxFailures)
    ensures status == DisabledDueErrors <==> TripsAt(attempts, used, maxFailures)
    ensures status == Stopped ==> used == |attempts|
    ensures waits == Waits(if status == Stopped then attempts else attempts[..used - 1], schedule)
  {
    var breaker := new CircuitBreaker(maxFailures);
    used, waits := 0, [];
    while used < |attempts|
      invariant 0 <= used <= |attempts|
      invariant fresh(breaker) && breaker.maxFailures == maxFailures
      invariant breaker.failures == Streak(attempts[..used]) && !breaker.isOpened
      invariant forall n :: n <= used ==> !TripsAt(attempts, n, maxFailures)
      invariant waits == Waits(attempts[..used], schedule)
    {
      ghost var h := attempts[..used + 1];
      assert h[..used] == attempts[..used];
      used := used + 1;
      if attempts[used - 1].Refused? {
        var open := breaker.RecordFailure();
        if open {
          return DisabledDueErrors, used, waits;
        }
        waits := waits + [BackoffDelay(breaker.failures, schedule)];
      } else {
        breaker.RecordSuccess();
        if attempts[used - 1].Cut? {
          var open := breaker.RecordFailure();
          if open {
            return DisabledDueErrors, used, waits;
          }
          waits := waits + [BackoffDelay(breaker.failures, schedule)];
        }
      }
    }
    assert attempts[..used] == attempts;
    status := Stopped;
  }

  /** A streak reaches `m` exactly when the last `m - 1` attempts were refused and the one
      before them failed. */
  lemma {:induction false} StreakIsRefusals(h: seq<Attempt>, m: nat)
    requires m >= 1
    ensures Streak(h) >= m <==>
              && |h| >= m && !h[|h| - m].Interrupted?
              && forall i :: |h| - m < i < |h| ==> h[i].Refused?
  {
    if h != [] && m > 1 {
      var front := h[..|h| - 1];
      StreakIsRefusals(front, m - 1);
      assert |h| >= m ==> front[|front| - (m - 1)] == h[|h| - m];
    }
  }

  /** A worker is disabled exactly after as many failures in a row as the limit, of which
      only the first may be a cut stream. */
  lemma {:induction false} DisabledByRefusals(attempts: seq<Attempt>, n: int, maxFailures: nat)
    requires maxFailures >= 1
    ensures TripsAt(attempts, n, maxFailures) <==>
              && maxFailures <= n <= |attempts| && !attempts[n - maxFailures].Interrupted?
              && forall i :: n - maxFailures < i < n ==> attempts[i].Refused?
  {
    if 0 < n <= |attempts| {
      StreakIsRefusals(attempts[..n], maxFailures);
    }
  }

  /** With a limit of two or more, a camera whose connections all open and are then cut is
      never disabled, however often that happens; with a limit of one or less, the first
      failure disables it. */
  lemma {:induction false} CutsAloneDisableIff(attempts: seq<Attempt>, maxFailures: int)
    requires forall i :: 0 <= i < |attempts| ==> attempts[i].Cut?
    ensures (exists n :: TripsAt(attempts, n, maxFailures)) <==> maxFailures <= 1 && attempts != []
  {
    if maxFailures <= 1 && attempts != [] {
      assert TripsAt(attempts, 1, maxFailures);
    }
  }

  /** After the n-th failure in a row the worker waits the n-th entry of the schedule, or the
      last one when there is none. */
  lemma {:induction false} WaitOfFailure(h: seq<Attempt>, schedule: seq<int>, n: nat)
    requires schedule != [] && 1 <= n <= |h| && !h[|h| - n].Interrupted?
    requires forall i :: |h| - n < i < |h| ==> h[i].Refused?
    requires |h| == n || h[|h| - n].Cut? || h[|h| - n - 1].Interrupted?
    ensures Waits(h, schedule) ==
              Waits(h[..|h| - 1], schedule) + [if n <= |schedule| then schedule[n - 1] else schedule[|schedule| - 1]]
  {
    StreakLength(h, n);
  }

  lemma {:induction false} StreakLength(h: seq<Attempt>, n: nat)
    requires 1 <= n <= |h| && !h[|h| - n].Interrupted?
    requires forall i :: |h| - n < i < |h| ==> h[i].Refused?
    requires |h| == n || h[|h| - n].Cut? || h[|h| - n - 1].Interrupted?
    ensures Streak(h) == n
  {
    var front := h[..|h| - 1];
    if n > 1 {
      StreakLength(front, n - 1);
    }
  }

  /** An attempt that was interrupted waits for nothing. */
  lemma {:induction false} NoWaitWhenInterrupted(h: seq<Attempt>, schedule: seq<int>)
    requires schedule != [] && h != [] && h[|h| - 1].Interrupted?
    ensures Waits(h, schedule) == Waits(h[..|h| - 1], schedule)
  {
  }
}
