/** `waitUntil($callback, $timeoutInSeconds)`: evaluate the callback once,
    then keep re-evaluating it while the time spent since the start is at
    most the timeout, stopping at the first true result.

    The wall clock and the callback are replaced by what they return: `clock`
    holds the successive clock readings in microseconds (`clock[0]` is the
    start, `clock[j]` the reading taken by the j-th loop test) and
    `answers[j]` is what the callback would return at its evaluation after
    that reading (`answers[0]` is the first, unconditional evaluation). */
module Polling {

  const MicrosPerSecond: int := 1_000_000

  /** PHP's `(int)` cast of a number: truncation toward zero. */
  function TruncateToInt(t: real): (r: int)
    ensures t >= 0.0 ==> r as real <= t < r as real + 1.0
    ensures t < 0.0 ==> r as real - 1.0 < t <= r as real
  {
    if t >= 0.0 then t.Floor else -((-t).Floor)
  }

  /** The largest elapsed time, in microseconds, at which the loop still
      retries: `(int) $timeoutInSeconds` seconds. */
  function Deadline(timeout: real): int {
    TruncateToInt(timeout) * MicrosPerSecond
  }

  /** The environment eventually lets the deadline pass: the last reading
      shows an elapsed time beyond it. Without such a reading the source
      loops for ever. */
  predicate DeadlinePasses(clock: seq<int>, answers: seq<bool>, deadline: int) {
    && |clock| == |answers|
    && |clock| >= 2
    && clock[|clock| - 1] - clock[0] > deadline
  }

  /** Whether the condition was finally met, and how many times the callback
      ran. */
  datatype Poll = Poll(met: bool, evaluations: nat)

  /** The outcome of `waitUntil`. */
  function WaitUntil(clock: seq<int>, answers: seq<bool>, timeout: real): (r: Poll)
    requires DeadlinePasses(clock, answers, Deadline(timeout))
    ensures 1 <= r.evaluations <= |answers|
    ensures r.met <==> exists i :: 0 <= i < r.evaluations && answers[i]
    ensures forall i :: 0 <= i < r.evaluations - 1 ==> !answers[i]
    ensures forall j :: 1 <= j < r.evaluations ==> clock[j] - clock[0] <= Deadline(timeout)
    ensures !r.met ==> r.evaluations < |clock| && clock[r.evaluations] - clock[0] > Deadline(timeout)
  {
    if answers[0] then Poll(true, 1)
    else RetryFrom(clock, answers, Deadline(timeout), 1)
  }

  /** The loop, entered at the test that reads `clock[j]`, after `j`
      evaluations that all returned false. */
  function RetryFrom(clock: seq<int>, answers: seq<bool>, deadline: int, j: nat): (r: Poll)
    requires |clock| == |answers| && 1 <= j < |clock|
    requires clock[|clock| - 1] - clock[0] > deadline
    requires forall i :: 0 <= i < j ==> !answers[i]
    requires forall i :: 1 <= i < j ==> clock[i] - clock[0] <= deadline
    ensures j <= r.evaluations <= |answers|
    ensures r.met <==> exists i :: 0 <= i < r.evaluations && answers[i]
    ensures forall i :: 0 <= i < r.evaluations - 1 ==> !answers[i]
    ensures forall i :: 1 <= i < r.evaluations ==> clock[i] - clock[0] <= deadline
    ensures !r.met ==> r.evaluations < |clock| && clock[r.evaluations] - clock[0] > deadline
    decreases |clock| - j
  {
    if clock[j] - clock[0] > deadline then Poll(false, j)
    else if answers[j] then Poll(true, j + 1)
    else RetryFrom(clock, answers, deadline, j + 1)
  }

  /** A true first answer ends the wait at once, whatever the clock says. */
  lemma FirstAnswerTrueStopsAtOnce(clock: seq<int>, answers: seq<bool>, timeout: real)
    requires DeadlinePasses(clock, answers, Deadline(timeout))
    requires answers[0]
    ensures WaitUntil(clock, answers, timeout) == Poll(true, 1)
  {
  }

  /** With a negative timeout and a clock that does not run backwards, the
      callback runs exactly once. */
  lemma NegativeTimeoutEvaluatesOnce(clock: seq<int>, answers: seq<bool>, timeout: real)
    requires DeadlinePasses(clock, answers, Deadline(timeout))
    requires timeout <= -1.0
    requires |clock| >= 2 && clock[1] >= clock[0]
    ensures WaitUntil(clock, answers, timeout).evaluations == 1
    ensures WaitUntil(clock, answers, timeout).met == answers[0]
  {
  }

  /** A timeout below one second truncates to zero; because the test is
      `<=`, the callback is still retried as long as the clock reads the same
      microsecond as at the start. */
  lemma SubSecondTimeoutStillRetriesWithinSameTick()
    ensures Deadline(0.5) == 0
    ensures WaitUntil([7, 7, 8], [false, true, true], 0.5) == Poll(true, 2)
    ensures WaitUntil([7, 8, 8], [false, true, true], 0.5) == Poll(false, 1)
  {
    assert TruncateToInt(0.5) == 0;
  }

  /** Evaluation `i` happens inside the window: every loop test before it
      found the elapsed time within the deadline. */
  predicate InWindow(clock: seq<int>, deadline: int, i: nat)
    requires i < |clock|
  {
    forall j :: 1 <= j <= i ==> clock[j] - clock[0] <= deadline
  }

  /** A reference reading of the loop: the wait succeeds exactly when some
      evaluation inside the window would answer true. */
  lemma WaitUntilMetIff(clock: seq<int>, answers: seq<bool>, timeout: real)
    requires DeadlinePasses(clock, answers, Deadline(timeout))
    ensures WaitUntil(clock, answers, timeout).met
        <==> exists i :: 0 <= i < |answers| && answers[i] && InWindow(clock, Deadline(timeout), i)
  {
    var r := WaitUntil(clock, answers, timeout);
    var d := Deadline(timeout);
    if r.met {
      var i :| 0 <= i < r.evaluations && answers[i];
      assert InWindow(clock, d, i);
    } else {
      forall i | 0 <= i < |answers| && answers[i]
        ensures !InWindow(clock, d, i)
      {
        assert r.evaluations <= i;
        assert clock[r.evaluations] - clock[0] > d;
      }
    }
  }

}
