/** The process lifecycle: `start`, `stop`, `stopAndWaitForConnectionLoss`
    and the private steps behind them (`startAndWaitUntilServerIsUp`,
    `startServer`, `waitUntilServerIsUp`/`Down`, `killServer`).

    Every operation is a function from the controller and the outside
    world's answers to a `Step`: the controller afterwards, the externally
    visible events in the order they happen (connection probes, the spawn,
    shell commands), and how the call ended. An exception ends the call, so
    every event in the trace happens before it. */
module Lifecycle {
  import opened Wrappers
  import opened PhpStrings
  import opened Controller
  import opened Polling
  import opened Commands

  /** The default `$timeoutInSeconds` of both `start` and
      `stopAndWaitForConnectionLoss`. */
  const DefaultTimeout: real := 10.0

  datatype Event =
    | Probe(host: string, port: int)  // `canConnect()`: open and close a socket
    | Spawn(command: string)          // `proc_open($command, …)`
    | Shell(command: string)          // `shell_exec($command)`

  datatype Outcome = Returned | Threw(error: Error)

  datatype Step = Step(controller: ServerController, trace: seq<Event>, outcome: Outcome)

  /** What successive `canConnect()` probes answer while waiting, with the
      clock readings taken around them (see `Polling`). */
  datatype Readings = Readings(clock: seq<int>, answers: seq<bool>)

  /** The clock passes the wait's deadline before the readings run out. */
  predicate Sufficient(w: Readings, timeout: real) {
    DeadlinePasses(w.clock, w.answers, Deadline(timeout))
  }

  function Negate(answers: seq<bool>): (r: seq<bool>)
    ensures |r| == |answers|
    ensures forall i :: 0 <= i < |answers| ==> r[i] == !answers[i]
  {
    seq(|answers|, i requires 0 <= i < |answers| => !answers[i])
  }

  /** `n` probes of the controller's own address. */
  function ProbeEvents(c: ServerController, n: nat): (r: seq<Event>)
    ensures |r| == n
    ensures forall k :: 0 <= k < n ==> r[k] == Probe(ProbeHost(c), c.port)
  {
    seq(n, k requires 0 <= k < n => Probe(ProbeHost(c), c.port))
  }

  function Shells(commands: seq<string>): (r: seq<Event>)
    ensures |r| == |commands|
    ensures forall k :: 0 <= k < |commands| ==> r[k] == Shell(commands[k])
  {
    seq(|commands|, k requires 0 <= k < |commands| => Shell(commands[k]))
  }

  /** The two halves of a concatenation. */
  lemma Halves<T>(a: seq<T>, b: seq<T>)
    ensures (a + b)[..|a|] == a && (a + b)[|a|..] == b
  {
  }

  /** The three parts of a double concatenation. */
  lemma Thirds<T>(a: seq<T>, b: seq<T>, c: seq<T>)
    ensures (a + b + c)[..|a|] == a
    ensures (a + b + c)[|a|..|a| + |b|] == b
    ensures (a + b + c)[|a| + |b|..] == c
  {
  }

  /** No shell command appears in `trace`: nothing was killed. */
  predicate NoShells(trace: seq<Event>) {
    forall k :: 0 <= k < |trace| ==> !trace[k].Shell?
  }

  lemma NoShellsAppend(a: seq<Event>, b: seq<Event>)
    ensures NoShells(a) && NoShells(b) ==> NoShells(a + b)
  {
  }

  /** No probe appears in `trace`. */
  predicate NoProbes(trace: seq<Event>) {
    forall k :: 0 <= k < |trace| ==> !trace[k].Probe?
  }

  lemma NoProbesOnly(trace: seq<Event>, p: Event)
    ensures NoProbes(trace) ==> OnlyProbesOf(trace, p)
  {
  }

  /** Every probe in `trace` is the probe `p`. */
  predicate OnlyProbesOf(trace: seq<Event>, p: Event) {
    forall k :: 0 <= k < |trace| && trace[k].Probe? ==> trace[k] == p
  }

  lemma OnlyProbesAppend(a: seq<Event>, b: seq<Event>, p: Event)
    ensures OnlyProbesOf(a, p) && OnlyProbesOf(b, p) ==> OnlyProbesOf(a + b, p)
  {
  }

  /** `$pstatus['pid']` as interpolated into a shell command. For a process
      resource it is the pid; `proc_get_status` on anything else warns and
      returns null, which interpolates as the empty string. */
  function PidOf(h: Handle): string {
    if h.Resource? then NatToDecimal(h.pid) else ""
  }

  /** The interpolated pid is the process id in decimal, without leading
      zeros, and empty for anything that is not a process. */
  lemma PidOfDenotesPid(h: Handle)
    ensures h.Resource? ==> |PidOf(h)| >= 1 && AllDigits(PidOf(h)) && DecimalValue(PidOf(h)) == h.pid
    ensures h.Resource? ==> (PidOf(h)[0] == '0' ==> h.pid == 0)
    ensures !h.Resource? ==> PidOf(h) == ""
  {
    if h.Resource? {
      DecimalRoundTrip(h.pid);
    }
  }

  /** `killServer()`: the shell commands that tear down the process tree of
      the held handle. The handle itself stays as it is. */
  function KillServer(c: ServerController, phpOs: string, psOutput: string): (r: seq<Event>)
    ensures |r| >= 1
    ensures forall k :: 0 <= k < |r| ==> r[k].Shell?
    ensures IsWindows(phpOs) ==> r == [Shell(TreeKill(PidOf(c.handle)))]
    ensures !IsWindows(phpOs) ==> r[|r| - 1] == Shell(SigKill(PidOf(c.handle)))
  {
    Shells(KillCommands(IsWindows(phpOs), PidOf(c.handle), psOutput))
  }

  lemma KillServerNoProbes(c: ServerController, phpOs: string, psOutput: string)
    ensures NoProbes(KillServer(c, phpOs, psOutput))
  {
  }

  /** The command `startServer()` passes to `proc_open`. */
  function StartCommand(c: ServerController, phpOs: string): string {
    LaunchCommand(IsWindows(phpOs), c.host, c.port, c.documentRoot, c.router)
  }

  // ---------------------------------------------------------------------
  // start
  // ---------------------------------------------------------------------

  /** `start($timeoutInSeconds)`, given whether the first probe finds the
      port occupied, what `proc_open` returns, what the wait's probes answer,
      and what the child query prints should the server have to be killed. */
  function Start(c: ServerController, phpOs: string, occupied: bool, spawned: Handle,
                 w: Readings, psOutput: string, timeout: real): (r: Step)
    requires Sufficient(w, timeout)
    // the port is probed first, always at the probe address
    ensures |r.trace| >= 1 && r.trace[0] == Probe(ProbeHost(c), c.port)
    ensures OnlyProbesOf(r.trace, Probe(ProbeHost(c), c.port))
    // an occupied port: no spawn, no kill, the handle untouched
    ensures occupied ==> r == Step(c, [Probe(ProbeHost(c), c.port)], Threw(PortBlocked))
    // otherwise the spawn comes second and its result becomes the handle
    ensures !occupied ==> |r.trace| >= 2 && r.trace[1] == Spawn(StartCommand(c, phpOs))
    ensures !occupied ==> r.controller == c.(handle := spawned)
    // a null handle is reported before any polling
    ensures !occupied && spawned == Null ==> |r.trace| == 2 && r.outcome == Threw(SpawnFailed)
    // success exactly when the wait saw the server come up
    ensures r.outcome == Returned <==>
              !occupied && spawned != Null && WaitUntil(w.clock, w.answers, timeout).met
    // a timeout kills the server before the exception, which reports the truncated timeout
    ensures r.outcome.Threw? && r.outcome.error.StartupTimeout? ==>
              && !occupied && spawned != Null && !WaitUntil(w.clock, w.answers, timeout).met
              && r.outcome.error.seconds == TruncateToInt(timeout)
              && var kill := KillServer(r.controller, phpOs, psOutput);
                 |r.trace| >= |kill| && r.trace[|r.trace| - |kill|..] == kill
    ensures r.outcome.Threw? ==> r.outcome.error in {PortBlocked, SpawnFailed, StartupTimeout(TruncateToInt(timeout))}
    ensures !occupied && spawned != Null && !WaitUntil(w.clock, w.answers, timeout).met ==>
              r.outcome == Threw(StartupTimeout(TruncateToInt(timeout)))
  {
    if occupied then Step(c, [Probe(ProbeHost(c), c.port)], Threw(PortBlocked))
    else
      var kill := KillServer(c.(handle := spawned), phpOs, psOutput);
      KillServerNoProbes(c.(handle := spawned), phpOs, psOutput);
      Launch(c, Spawn(StartCommand(c, phpOs)), spawned, kill, w, timeout)
  }

  /** After a spawn that returned something other than null, `start` runs
      exactly the probes of the wait; when it returns, they are the last
      events and nothing has been killed, and when it times out, only the
      kill commands follow them. */
  lemma StartRunsTheWait(c: ServerController, phpOs: string, spawned: Handle,
                         w: Readings, psOutput: string, timeout: real)
    requires Sufficient(w, timeout) && spawned != Null
    ensures var r := Start(c, phpOs, false, spawned, w, psOutput, timeout);
            var n := WaitUntil(w.clock, w.answers, timeout).evaluations;
            && |r.trace| >= 2 + n && r.trace[2..2 + n] == ProbeEvents(c, n)
            && (r.outcome == Returned ==> |r.trace| == 2 + n && NoShells(r.trace))
            // on a timeout the kill commands follow the probes directly
            && (r.outcome != Returned ==>
                  |r.trace| == 2 + n + |KillServer(c.(handle := spawned), phpOs, psOutput)|)
  {
    var kill := KillServer(c.(handle := spawned), phpOs, psOutput);
    KillServerNoProbes(c.(handle := spawned), phpOs, psOutput);
    assert Start(c, phpOs, false, spawned, w, psOutput, timeout)
        == Launch(c, Spawn(StartCommand(c, phpOs)), spawned, kill, w, timeout);
  }

  /** `start` on a free port (`startAndWaitUntilServerIsUp`, then the kill
      and the exception should the wait fail), given the spawn event and
      the commands that kill the spawned server. */
  function Launch(c: ServerController, spawn: Event, spawned: Handle, kill: seq<Event>,
                  w: Readings, timeout: real): (r: Step)
    requires Sufficient(w, timeout)
    requires spawn.Spawn? && NoProbes(kill)
    ensures |r.trace| >= 2 && r.trace[0] == Probe(ProbeHost(c), c.port) && r.trace[1] == spawn
    ensures OnlyProbesOf(r.trace, Probe(ProbeHost(c), c.port))
    ensures r.controller == c.(handle := spawned)
    ensures spawned == Null ==> |r.trace| == 2 && r.outcome == Threw(SpawnFailed)
    ensures spawned != Null ==>
              var n := WaitUntil(w.clock, w.answers, timeout).evaluations;
              |r.trace| >= 2 + n && r.trace[2..2 + n] == ProbeEvents(c, n)
    ensures r.outcome == Returned <==> spawned != Null && WaitUntil(w.clock, w.answers, timeout).met
    ensures r.outcome == Returned ==>
              |r.trace| == 2 + WaitUntil(w.clock, w.answers, timeout).evaluations && NoShells(r.trace)
    ensures spawned != Null && !WaitUntil(w.clock, w.answers, timeout).met ==>
              && r.outcome == Threw(StartupTimeout(TruncateToInt(timeout)))
              && |r.trace| == 2 + WaitUntil(w.clock, w.answers, timeout).evaluations + |kill|
              && r.trace[|r.trace| - |kill|..] == kill
    ensures r.outcome.Threw? ==> r.outcome.error in {SpawnFailed, StartupTimeout(TruncateToInt(timeout))}
  {
    var probe := Probe(ProbeHost(c), c.port);
    var started := c.(handle := spawned);
    var launched := [probe, spawn];
    if spawned == Null then Step(started, launched, Threw(SpawnFailed))
    else
      var n := WaitUntil(w.clock, w.answers, timeout).evaluations;
      SameProbes(c, spawned, n);
      NoShellsAppend(launched, ProbeEvents(c, n));
      AwaitServer(started, launched, kill, w, timeout)
  }

  /** The part of `start` after a spawn that returned something other than
      null: the probes of the wait, then, if the server never came up, the
      kill commands. */
  function AwaitServer(started: ServerController, launched: seq<Event>, kill: seq<Event>,
                       w: Readings, timeout: real): (r: Step)
    requires Sufficient(w, timeout)
    requires NoProbes(kill)
    ensures r.controller == started
    ensures var n := WaitUntil(w.clock, w.answers, timeout).evaluations;
            && |r.trace| >= |launched| + n
            && r.trace[..|launched|] == launched
            && r.trace[|launched|..|launched| + n] == ProbeEvents(started, n)
    ensures OnlyProbesOf(launched, Probe(ProbeHost(started), started.port)) ==>
              OnlyProbesOf(r.trace, Probe(ProbeHost(started), started.port))
    ensures r.outcome == Returned <==> WaitUntil(w.clock, w.answers, timeout).met
    // on success the probes are the last events: nothing is killed
    ensures r.outcome == Returned ==>
              r.trace == launched + ProbeEvents(started, WaitUntil(w.clock, w.answers, timeout).evaluations)
    ensures r.outcome != Returned ==>
              && r.outcome == Threw(StartupTimeout(TruncateToInt(timeout)))
              && |r.trace| == |launched| + WaitUntil(w.clock, w.answers, timeout).evaluations + |kill|
              && r.trace[|r.trace| - |kill|..] == kill
  {
    var probe := Probe(ProbeHost(started), started.port);
    var poll := WaitUntil(w.clock, w.answers, timeout);
    var probes := ProbeEvents(started, poll.evaluations);
    var waited := launched + probes;
    Halves(launched, probes);
    OnlyProbesAppend(launched, probes, probe);
    if poll.met then Step(started, waited, Returned)
    else
      Thirds(launched, probes, kill);
      NoProbesOnly(kill, probe);
      OnlyProbesAppend(waited, kill, probe);
      Step(started, waited + kill, Threw(StartupTimeout(TruncateToInt(timeout))))
  }

  /** The handle plays no part in the probes. */
  lemma SameProbes(c: ServerController, h: Handle, n: nat)
    ensures ProbeEvents(c.(handle := h), n) == ProbeEvents(c, n)
  {
  }

  /** `start` with the spawn check the source evidently intends: a
      `proc_open` result that is not a process, `false` included, is
      reported at once instead of being polled and later killed. */
  function StartChecked(c: ServerController, phpOs: string, occupied: bool, spawned: Handle,
                        w: Readings, psOutput: string, timeout: real): (r: Step)
    requires Sufficient(w, timeout)
    ensures !occupied && !spawned.Resource? ==> r.outcome == Threw(SpawnFailed) && |r.trace| == 2
    // that failure is reported after only the probe and the spawn, holding what `proc_open` returned
    ensures !occupied && !spawned.Resource? ==>
              && r.controller == c.(handle := spawned)
              && r.trace == [Probe(ProbeHost(c), c.port), Spawn(StartCommand(c, phpOs))]
    ensures spawned.Resource? || occupied ==> r == Start(c, phpOs, occupied, spawned, w, psOutput, timeout)
    ensures forall k :: 0 <= k < |r.trace| && r.trace[k].Shell? ==> r.controller.handle.Resource?
  {
    if !occupied && spawned == False then
      Step(c.(handle := spawned), [Probe(ProbeHost(c), c.port), Spawn(StartCommand(c, phpOs))], Threw(SpawnFailed))
    else
      Start(c, phpOs, occupied, spawned, w, psOutput, timeout)
  }

  // ---------------------------------------------------------------------
  // stop
  // ---------------------------------------------------------------------

  /** `stop()`: kill the server if a handle is held. */
  function Stop(c: ServerController, phpOs: string, psOutput: string): (r: Step)
    ensures r.controller == c
    ensures r.outcome == Returned
    ensures r.trace == [] <==> c.handle == Null
    ensures c.handle != Null ==> r.trace == KillServer(c, phpOs, psOutput)
  {
    if c.handle != Null then Step(c, KillServer(c, phpOs, psOutput), Returned)
    else Step(c, [], Returned)
  }

  /** `waitUntil` on the negated probe answers, read back in terms of the
      answers themselves: it stops at the first failed probe inside the
      window, or once the clock passes the deadline. */
  lemma WaitForLoss(w: Readings, timeout: real)
    requires Sufficient(w, timeout)
    ensures var n := WaitUntil(w.clock, Negate(w.answers), timeout).evaluations;
            && 1 <= n <= |w.answers|
            && (forall i :: 0 <= i < n - 1 ==> w.answers[i])
            && (forall j :: 1 <= j < n ==> w.clock[j] - w.clock[0] <= Deadline(timeout))
            && (!w.answers[n - 1] || (n < |w.clock| && w.clock[n] - w.clock[0] > Deadline(timeout)))
  {
    var negated := Negate(w.answers);
    var poll := WaitUntil(w.clock, negated, timeout);
    var n := poll.evaluations;
    forall i | 0 <= i < n - 1
      ensures w.answers[i]
    {
      assert !negated[i];
    }
    if w.answers[n - 1] {
      assert !negated[n - 1];
      assert !poll.met;
    }
  }

  /** `stopAndWaitForConnectionLoss($timeoutInSeconds)`: stop, then wait for
      a probe to fail. The outcome of the wait is discarded; the call never
      throws. */
  function StopAndWaitForConnectionLoss(c: ServerController, phpOs: string, psOutput: string,
                                        w: Readings, timeout: real): (r: Step)
    requires Sufficient(w, timeout)
    ensures r.controller == c
    ensures r.outcome == Returned
    ensures var stopped := Stop(c, phpOs, psOutput).trace;
            && |stopped| < |r.trace|
            && r.trace[..|stopped|] == stopped
            && r.trace[|stopped|..] == ProbeEvents(c, |r.trace| - |stopped|)
    // the probes stop at the first one that fails inside the window, or
    // once the clock passes the deadline, whichever comes first
    ensures var n := |r.trace| - |Stop(c, phpOs, psOutput).trace|;
            && 1 <= n <= |w.answers|
            && (forall i :: 0 <= i < n - 1 ==> w.answers[i])
            && (forall j :: 1 <= j < n ==> w.clock[j] - w.clock[0] <= Deadline(timeout))
            && (!w.answers[n - 1] || (n < |w.clock| && w.clock[n] - w.clock[0] > Deadline(timeout)))
  {
    var stopped := Stop(c, phpOs, psOutput).trace;
    var probes := WaitUntilServerIsDown(c, w, timeout);
    Halves(stopped, probes);
    Step(c, stopped + probes, Returned)
  }

  /** `waitUntilServerIsDown($timeoutInSeconds)`: the probes it sends. They
      stop at the first one that fails inside the window, or once the clock
      passes the deadline, whichever comes first. */
  function WaitUntilServerIsDown(c: ServerController, w: Readings, timeout: real): (r: seq<Event>)
    requires Sufficient(w, timeout)
    ensures r == ProbeEvents(c, |r|)
    ensures 1 <= |r| <= |w.answers|
    ensures forall i :: 0 <= i < |r| - 1 ==> w.answers[i]
    ensures forall j :: 1 <= j < |r| ==> w.clock[j] - w.clock[0] <= Deadline(timeout)
    ensures !w.answers[|r| - 1] || (|r| < |w.clock| && w.clock[|r|] - w.clock[0] > Deadline(timeout))
  {
    WaitForLoss(w, timeout);
    ProbeEvents(c, WaitUntil(w.clock, Negate(w.answers), timeout).evaluations)
  }


}
