/** Properties that relate several lifecycle calls, and the scenarios the
    controller's tests exercise. */
module LifecycleProperties {
  import opened Wrappers
  import opened PhpStrings
  import opened Controller
  import opened Polling
  import opened Commands
  import opened Lifecycle

  /** A second controller on the host and port of a first one probes the
      very address the first controller probes; when that probe is answered
      (the first server is up), the second is refused before it spawns or
      kills anything, so the first server is left alone. */
  lemma SecondControllerOnBusyPortIsRefused(first: ServerController, second: ServerController, phpOs: string,
                                            spawned: Handle, w: Readings, psOutput: string, timeout: real)
    requires Sufficient(w, timeout)
    requires second.host == first.host && second.port == first.port
    ensures var r := Start(second, phpOs, true, spawned, w, psOutput, timeout);
            && r.trace == [Probe(ProbeHost(first), first.port)]
            && r.outcome == Threw(PortBlocked)
            && r.controller == second
            && forall k :: 0 <= k < |r.trace| ==> !r.trace[k].Spawn? && !r.trace[k].Shell?
  {
  }

  /** When the server never comes up, the spawned process is killed before
      the timeout exception: on POSIX the last event is the SIGKILL of the
      spawned pid, on Windows the tree kill of it. */
  lemma TimeoutKillsSpawnedServerFirst(c: ServerController, phpOs: string, pid: nat, w: Readings,
                                       psOutput: string, timeout: real)
    requires Sufficient(w, timeout)
    requires !WaitUntil(w.clock, w.answers, timeout).met
    ensures var r := Start(c, phpOs, false, Resource(pid), w, psOutput, timeout);
            && r.outcome == Threw(StartupTimeout(TruncateToInt(timeout)))
            && r.trace[1] == Spawn(StartCommand(c, phpOs))
            && r.trace[|r.trace| - 1] == Shell(if IsWindows(phpOs) then TreeKill(NatToDecimal(pid))
                                               else SigKill(NatToDecimal(pid)))
  {
    var r := Start(c, phpOs, false, Resource(pid), w, psOutput, timeout);
    var kill := KillServer(r.controller, phpOs, psOutput);
    assert r.trace[|r.trace| - |kill|..] == kill;
    assert r.trace[|r.trace| - 1] == kill[|kill| - 1];
  }

  /** `stop` on a controller that holds no handle does nothing. */
  lemma StopWithoutHandleDoesNothing(c: ServerController, phpOs: string, psOutput: string)
    requires c.handle == Null
    ensures Stop(c, phpOs, psOutput) == Step(c, [], Returned)
  {
  }

  /** `killServer` never clears the handle, so a second `stop` issues the
      same kill commands again, for the same pid. */
  lemma StopTwiceKillsTwice(c: ServerController, phpOs: string, psOutput: string)
    requires c.handle != Null
    ensures var once := Stop(c, phpOs, psOutput);
            var twice := Stop(once.controller, phpOs, psOutput);
            once.trace == twice.trace && |twice.trace| > 0
  {
  }

  /** After a successful POSIX start, `stop` kills every child listed by
      `ps`, in listing order, and then the spawned process itself. */
  lemma StopAfterStartKillsSpawnedTree(c: ServerController, phpOs: string, pid: nat, w: Readings,
                                       startPs: string, timeout: real, children: seq<nat>,
                                       lead: string, seps: seq<string>, trail: string)
    requires Sufficient(w, timeout)
    requires !IsWindows(phpOs)
    requires Start(c, phpOs, false, Resource(pid), w, startPs, timeout).outcome == Returned
    requires |children| >= 1 && |seps| == |children| - 1
    requires Gaps(seps) && AllSpace(lead) && AllSpace(trail)
    ensures var started := Start(c, phpOs, false, Resource(pid), w, startPs, timeout).controller;
            var p := NatToDecimal(pid);
            Stop(started, phpOs, lead + Join(Decimals(children), seps) + trail).trace
              == Shells([ChildQuery(p)] + SigKills(Decimals(children)) + [SigKill(p)])
  {
    KillOrderForListing(pid, children, lead, seps, trail);
  }

  /** A server bound to every interface is probed at the loopback
      address ... */
  lemma BindAllInterfacesProbeLoopback(c: ServerController, phpOs: string, occupied: bool, spawned: Handle,
                                       w: Readings, psOutput: string, timeout: real)
    requires Sufficient(w, timeout)
    requires c.host == AnyInterface
    ensures var r := Start(c, phpOs, occupied, spawned, w, psOutput, timeout);
            OnlyProbesOf(r.trace, Probe(Loopback, c.port))
  {
  }

  /** ... but launched bound to `0.0.0.0` itself. */
  lemma BindAllInterfacesLaunch(c: ServerController)
    requires c.host == AnyInterface
    ensures var cmd := StartCommand(c, "Linux");
            |cmd| >= 20 && cmd[..20] == "exec php -S 0.0.0.0:"
  {
    PosixLaunchPrefix(c.host, c.port, c.documentRoot, c.router);
    AnyInterfaceInvocation();
  }

  lemma AnyInterfaceInvocation()
    ensures "exec " + Invocation(AnyInterface) == "exec php -S 0.0.0.0:"
  {
    assert Invocation(AnyInterface) == "php -S 0.0.0.0:";
  }

  // ---------------------------------------------------------------------
  // The spawn check
  // ---------------------------------------------------------------------

  /** As written, a `proc_open` that fails (returns `false`) slips past the
      `=== null` check: on a POSIX system the controller polls, and when the
      wait fails it runs the kill commands with an empty pid. */
  lemma FailedSpawnGoesUndetected(c: ServerController, phpOs: string, w: Readings, timeout: real)
    requires !IsWindows(phpOs) && Sufficient(w, timeout)
    requires !WaitUntil(w.clock, w.answers, timeout).met
    ensures Start(c, phpOs, false, False, w, "", timeout).outcome == Threw(StartupTimeout(TruncateToInt(timeout)))
    ensures Start(c, phpOs, false, False, w, "", timeout).controller.handle == False
    ensures var n := WaitUntil(w.clock, w.answers, timeout).evaluations;
            var probe := Probe(ProbeHost(c), c.port);
            Start(c, phpOs, false, False, w, "", timeout).trace
              == [probe, Spawn(StartCommand(c, phpOs))] + ProbeEvents(c, n)
                   + Shells([ChildQuery(""), SigKill("")])
  {
    var started := c.(handle := False);
    var n := WaitUntil(w.clock, w.answers, timeout).evaluations;
    KillWithoutHandle(started, phpOs);
    assert ProbeEvents(started, n) == ProbeEvents(c, n);
  }

  /** Killing a controller that holds `false` on a POSIX system: the child
      query and the kill both get an empty pid. */
  lemma KillWithoutHandle(c: ServerController, phpOs: string)
    requires c.handle == False && !IsWindows(phpOs)
    ensures KillServer(c, phpOs, "") == Shells([ChildQuery(""), SigKill("")])
  {
    KillWithoutChildren("");
  }

  /** As written, no failed spawn is ever reported as such: `proc_open`
      yields a process or `false`, and for both `start` goes on to poll. */
  lemma SpawnFailureUnreachable(c: ServerController, phpOs: string, spawned: Handle, w: Readings,
                                psOutput: string, timeout: real)
    requires Sufficient(w, timeout)
    requires spawned != Null
    ensures Start(c, phpOs, false, spawned, w, psOutput, timeout).outcome != Threw(SpawnFailed)
    ensures |Start(c, phpOs, false, spawned, w, psOutput, timeout).trace| >= 3
    ensures Start(c, phpOs, false, spawned, w, psOutput, timeout).trace[2] == Probe(ProbeHost(c), c.port)
  {
    StartRunsTheWait(c, phpOs, spawned, w, psOutput, timeout);
  }

  /** The start-up scenario of the tests, with the default timeout on a
      free port: the spawned server answers the first probe, so `start`
      returns holding the process after one probe, the spawn and one more
      probe; the corrected start does the same. */
  lemma StartUpScenario(host: string, port: int, documentRoot: string, phpOs: string, pid: nat)
    ensures var c := ServerController(host, port, documentRoot, None, Null);
            var w := Readings([0, 11_000_000], [true, true]);
            var up := Start(c, phpOs, false, Resource(pid), w, "", DefaultTimeout);
            && up.outcome == Returned
            && up.controller == c.(handle := Resource(pid))
            && up.trace == [Probe(ProbeHost(c), port), Spawn(StartCommand(c, phpOs)), Probe(ProbeHost(c), port)]
            && StartChecked(c, phpOs, false, Resource(pid), w, "", DefaultTimeout) == up
  {
    var c := ServerController(host, port, documentRoot, None, Null);
    var w := Readings([0, 11_000_000], [true, true]);
    DefaultDeadline();
    assert WaitUntil(w.clock, w.answers, DefaultTimeout).met;
    assert WaitUntil(w.clock, w.answers, DefaultTimeout).evaluations == 1;
    StartRunsTheWait(c, phpOs, Resource(pid), w, "", DefaultTimeout);
  }

  /** The shut-down scenario with the default timeout on a POSIX system:
      `stopAndWaitForConnectionLoss` kills the process (no children
      listed), probes until the server stops answering, and returns. */
  lemma ShutDownScenario(host: string, port: int, documentRoot: string, phpOs: string, pid: nat)
    requires !IsWindows(phpOs)
    ensures var c := ServerController(host, port, documentRoot, None, Resource(pid));
            var down := StopAndWaitForConnectionLoss(c, phpOs, "",
                                                     Readings([0, 1, 11_000_000], [true, false, false]),
                                                     DefaultTimeout);
            && down.outcome == Returned
            && down.trace == Shells([ChildQuery(NatToDecimal(pid)), SigKill(NatToDecimal(pid))]) + ProbeEvents(c, 2)
  {
    var c := ServerController(host, port, documentRoot, None, Resource(pid));
    var w := Readings([0, 1, 11_000_000], [true, false, false]);
    DefaultDeadline();
    assert Stop(c, phpOs, "").trace == Shells([ChildQuery(NatToDecimal(pid)), SigKill(NatToDecimal(pid))]) by {
      KillWithoutChildren(NatToDecimal(pid));
    }
    assert |WaitUntilServerIsDown(c, w, DefaultTimeout)| == 2;
  }

  /** The default timeout of `start` and `stopAndWaitForConnectionLoss`,
      in microseconds. */
  lemma DefaultDeadline()
    ensures Deadline(DefaultTimeout) == 10_000_000
  {
    assert TruncateToInt(10.0) == 10;
  }

}
