// `wait_for_database`: retrying a connection until it answers or a deadline has passed.
module DatabaseWait {

  const RETRY_INTERVAL: real := 2.0
  const CONNECT_TIMEOUT: real := 5.0

  // What the n-th attempt and the n-th sleep turn out to be.
  datatype World = World(answers: nat -> bool, duration: nat -> real, slept: nat -> real)

  // Time does not run backwards during an attempt, and a sleep lasts at least as long as asked.
  ghost predicate Monotone(w: World) {
    forall n :: w.duration(n) >= 0.0 && w.slept(n) >= 2.0
  }

  // Attempts end within the connection timeout and sleeps last exactly as long as asked.
  ghost predicate Punctual(w: World) {
    forall n :: 0.0 <= w.duration(n) <= 5.0 && w.slept(n) == 2.0
  }

  datatype Result = Connected | TimedOut(checkedAt: real)

  function Ceiling(x: real): int {
    -((-x).Floor)
  }

  function NonNegative(x: real): real {
    if x > 0.0 then x else 0.0
  }

  class Clock {
    var now: real

    method Advance(seconds: real)
      modifies this
      ensures now == old(now) + seconds
    {
      now := now + seconds;
    }
  }

  // Each failed attempt that did not give up used two seconds of the timeout.
  lemma AttemptsBounded(attempts: nat, timeout: real)
    requires attempts > 0 ==> RETRY_INTERVAL * (attempts - 1) as real < timeout
    ensures attempts <= Ceiling(NonNegative(timeout) / RETRY_INTERVAL)
  {
    var x := NonNegative(timeout) / RETRY_INTERVAL;
    if attempts > 0 {
      assert (attempts - 1) as real < x;
    }
  }

  method WaitForDatabase(clock: Clock, timeout: real, w: World) returns (r: Result, attempts: nat)
    requires Monotone(w)
    modifies clock
    ensures 1 <= attempts <= Ceiling(NonNegative(timeout) / 2.0) + 1
    ensures forall n :: 0 <= n < attempts - 1 ==> !w.answers(n)
    ensures r.Connected? <==> w.answers(attempts - 1)
    ensures r.TimedOut? ==> r.checkedAt >= old(clock.now) + timeout && r.checkedAt == clock.now
    ensures r.TimedOut? && timeout > 0.0 && Punctual(w) ==>
      r.checkedAt < old(clock.now) + timeout + 7.0
  {
    var start := clock.now;
    var deadline := clock.now + timeout;
    attempts := 0;
    while true
      invariant clock.now >= start + RETRY_INTERVAL * attempts as real
      invariant attempts > 0 ==> RETRY_INTERVAL * (attempts - 1) as real < timeout
      invariant forall n :: 0 <= n < attempts ==> !w.answers(n)
      invariant Punctual(w) && timeout > 0.0 ==> clock.now < deadline + RETRY_INTERVAL
      decreases Ceiling(NonNegative(timeout) / RETRY_INTERVAL) + 1 - attempts
    {
      AttemptsBounded(attempts, timeout);
      clock.Advance(w.duration(attempts));
      attempts := attempts + 1;
      if w.answers(attempts - 1) {
        return Connected, attempts;
      }
      if clock.now >= deadline {
        return TimedOut(clock.now), attempts;
      }
      clock.Advance(w.slept(attempts - 1));
    }
  }
}
