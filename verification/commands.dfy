/** The string logic of `startServer` and `killServer`: the shell command
    that launches PHP's built-in web server, and the shell commands that tear
    the process tree down again, including the parsing of `ps` output into
    the list of child pids. */
module Commands {
  import opened Wrappers
  import opened PhpStrings

  // ---------------------------------------------------------------------
  // Platform detection
  // ---------------------------------------------------------------------

  /** `isWindows()`: `strtoupper(substr(PHP_OS, 0, 3)) === 'WIN'`. */
  function IsWindows(phpOs: string): (r: bool)
    ensures r <==> |phpOs| >= 3 && UpperChar(phpOs[0]) == 'W' && UpperChar(phpOs[1]) == 'I'
                                && UpperChar(phpOs[2]) == 'N'
  {
    var prefix := if |phpOs| <= 3 then phpOs else phpOs[..3];
    assert |prefix| == 3 ==> Upper(prefix) == [UpperChar(phpOs[0]), UpperChar(phpOs[1]), UpperChar(phpOs[2])];
    Upper(prefix) == "WIN"
  }

  /** The platform names PHP reports, classified. */
  lemma IsWindowsExamples()
    ensures IsWindows("WINNT") && IsWindows("WIN32") && IsWindows("Windows")
    ensures !IsWindows("Linux") && !IsWindows("Darwin") && !IsWindows("CYGWIN_NT-10.0") && !IsWindows("WI")
  {
  }

  // ---------------------------------------------------------------------
  // Launch command
  // ---------------------------------------------------------------------

  /** The router script argument: `str_replace` turns a null router into the
      empty string. */
  function RouterArgument(router: Option<string>): (r: string)
    ensures '\\' !in r
    ensures router.None? ==> r == ""
    ensures router.Some? ==> r == ReplaceBackslashes(router.value)
  {
    match router
    case None => ""
    case Some(path) => ReplaceBackslashes(path)
  }

  /** `php -S host:`, the start of the invocation both templates share. */
  function Invocation(host: string): string {
    "php -S " + host + ":"
  }

  /** ` -t documentRoot router`, with forward slashes in both paths. */
  function PathArguments(documentRoot: string, router: Option<string>): string {
    " -t " + (ReplaceBackslashes(documentRoot) + (" " + RouterArgument(router)))
  }

  /** `php -S host:port -t documentRoot router`: the part the two platform
      templates share. */
  function ServeArguments(host: string, port: int, documentRoot: string, router: Option<string>): string {
    Invocation(host) + (IntToDecimal(port) + PathArguments(documentRoot, router))
  }

  /** The three parts of `a + (b + c)` can be cut out again. */
  lemma SliceThree(a: string, b: string, c: string)
    ensures var x := a + (b + c);
            && |x| == |a| + |b| + |c|
            && x[..|a|] == a && x[|a|..|a| + |b|] == b && x[|a| + |b|..] == c
  {
    var x := a + (b + c);
    assert x[|a|..] == b + c;
  }

  /** A formatted integer holds no backslash. */
  lemma NoBackslashInDecimal(i: int)
    ensures '\\' !in IntToDecimal(i)
  {
    var d := IntToDecimal(i);
    if i < 0 {
      assert d == [d[0]] + d[1..];
      assert forall k :: 0 <= k < |d[1..]| ==> IsDigit(d[1..][k]);
    }
  }

  /** A string is a prefix of itself followed by anything. */
  lemma PrefixOfAppend(a: string, b: string)
    ensures |a + b| >= |a| && (a + b)[..|a|] == a
  {
  }

  /** The shared invocation starts with `p` and carries a backslash only
      where the host does. */
  lemma ServeArgumentsShape(host: string, port: int, documentRoot: string, router: Option<string>)
    ensures var serve := ServeArguments(host, port, documentRoot, router);
            |serve| > 0 && serve[0] == 'p' && ('\\' in serve ==> '\\' in host)
  {
    NoBackslashInDecimal(port);
    var inv := Invocation(host);
    assert inv == "php -S " + (host + ":");
    assert '\\' in inv ==> '\\' in host;
  }

  const WindowsBackground: string := " >nul 2>&1 &"

  /** The `php -S …` invocation inside a launch command: what follows
      `exec ` on POSIX systems, what precedes the background redirection on
      Windows. */
  function Invoked(windows: bool, cmd: string): string {
    if windows then (if |cmd| >= |WindowsBackground| then cmd[..|cmd| - |WindowsBackground|] else "")
    else (if |cmd| >= 5 then cmd[5..] else "")
  }

  /** The command `startServer` hands to `proc_open`: on POSIX systems the
      shell `exec`s PHP, on Windows PHP is backgrounded with its output
      discarded. */
  function LaunchCommand(windows: bool, host: string, port: int, documentRoot: string, router: Option<string>)
    : (r: string)
    ensures '\\' in r ==> '\\' in host
    ensures !windows <==> |r| >= 5 && r[..5] == "exec "
    ensures windows ==> |r| >= |WindowsBackground| && r[|r| - |WindowsBackground|..] == WindowsBackground
  {
    var serve := ServeArguments(host, port, documentRoot, router);
    ServeArgumentsShape(host, port, documentRoot, router);
    WrapShape(windows, serve);
    Wrap(windows, serve)
  }

  /** The platform wrapping of an invocation. */
  function Wrap(windows: bool, serve: string): string {
    if windows then serve + WindowsBackground else "exec " + serve
  }

  /** The wrapping adds no backslash, and tells the platforms apart by its
      `exec ` prefix or its background suffix. */
  lemma WrapShape(windows: bool, serve: string)
    requires |serve| > 0 && serve[0] == 'p'
    ensures var cmd := Wrap(windows, serve);
            && ('\\' in cmd ==> '\\' in serve)
            && (!windows <==> |cmd| >= 5 && cmd[..5] == "exec ")
            && (windows ==> |cmd| >= |WindowsBackground| && cmd[|cmd| - |WindowsBackground|..] == WindowsBackground)
            && Invoked(windows, cmd) == serve
  {
    if windows {
      var cmd := serve + WindowsBackground;
      assert cmd[0] == 'p';
      assert cmd[..|serve|] == serve;
      assert cmd[|cmd| - |WindowsBackground|..] == WindowsBackground;
    } else {
      var cmd := "exec " + serve;
      assert cmd[..5] == "exec ";
      assert cmd[5..] == serve;
    }
  }

  /** What the launch command holds: behind `php -S host:` come the
      formatted port, then `-t` with the forward-slashed document root, then
      the forward-slashed router (empty when there is none), and nothing
      else. */
  lemma LaunchCommandCarriesArguments(windows: bool, host: string, port: int, documentRoot: string,
                                      router: Option<string>)
    ensures var serve := Invoked(windows, LaunchCommand(windows, host, port, documentRoot, router));
            var inv := Invocation(host);
            var digits := IntToDecimal(port);
            && |serve| == |inv| + |digits| + |PathArguments(documentRoot, router)|
            && serve[..|inv|] == inv
            && serve[|inv|..|inv| + |digits|] == digits
            && serve[|inv| + |digits|..] == PathArguments(documentRoot, router)
    ensures PathArguments(documentRoot, router)
         == " -t " + ReplaceBackslashes(documentRoot) + " " + RouterArgument(router)
  {
    var inv := Invocation(host);
    var digits := IntToDecimal(port);
    var paths := PathArguments(documentRoot, router);
    assert LaunchCommand(windows, host, port, documentRoot, router) == Wrap(windows, inv + (digits + paths));
    WrappedSlices(windows, inv, digits, paths);
    RegroupFour(" -t ", ReplaceBackslashes(documentRoot), " ", RouterArgument(router));
  }

  /** Unwrapping a command built from three parts gives the parts back. */
  lemma WrappedSlices(windows: bool, inv: string, digits: string, paths: string)
    ensures var serve := Invoked(windows, Wrap(windows, inv + (digits + paths)));
            && |serve| == |inv| + |digits| + |paths|
            && serve[..|inv|] == inv && serve[|inv|..|inv| + |digits|] == digits && serve[|inv| + |digits|..] == paths
  {
    var serve := inv + (digits + paths);
    if windows {
      PrefixOfAppend(serve, WindowsBackground);
    } else {
      assert ("exec " + serve)[5..] == serve;
    }
    SliceThree(inv, digits, paths);
  }

  lemma RegroupFour(a: string, b: string, c: string, d: string)
    ensures a + (b + (c + d)) == a + b + c + d
  {
  }

  /** On POSIX systems the command starts by binding the configured host. */
  lemma PosixLaunchPrefix(host: string, port: int, documentRoot: string, router: Option<string>)
    ensures var cmd := LaunchCommand(false, host, port, documentRoot, router);
            var prefix := "exec " + Invocation(host);
            |cmd| >= |prefix| && cmd[..|prefix|] == prefix
  {
    PrefixOfNested("exec ", Invocation(host), IntToDecimal(port) + PathArguments(documentRoot, router));
  }

  /** `a + b` is a prefix of `a + (b + c)`. */
  lemma PrefixOfNested(a: string, b: string, c: string)
    ensures |a + (b + c)| >= |a + b| && (a + (b + c))[..|a + b|] == a + b
  {
    assert a + (b + c) == (a + b) + c;
    PrefixOfAppend(a + b, c);
  }

  /** The two templates wrap the same `php -S …` invocation. */
  lemma LaunchTemplatesShareInvocation(host: string, port: int, documentRoot: string, router: Option<string>)
    ensures var posix := LaunchCommand(false, host, port, documentRoot, router);
            var windows := LaunchCommand(true, host, port, documentRoot, router);
            posix == "exec " + windows[..|windows| - |WindowsBackground|]
  {
    var serve := ServeArguments(host, port, documentRoot, router);
    PrefixOfAppend(serve, WindowsBackground);
  }

  // ---------------------------------------------------------------------
  // Parsing `ps` output
  // ---------------------------------------------------------------------

  /** The tokens `is_numeric` accepts, in their original order. */
  function KeepNumeric(tokens: seq<string>): (r: seq<string>)
    ensures |r| <= |tokens|
    ensures forall k :: 0 <= k < |r| ==> IsNumeric(r[k])
    ensures forall t :: t in r ==> t in tokens
    ensures forall t :: t in tokens && IsNumeric(t) ==> t in r
  {
    if |tokens| == 0 then []
    else (if IsNumeric(tokens[0]) then [tokens[0]] else []) + KeepNumeric(tokens[1..])
  }

  /** Filtering distributes over concatenation, so it keeps the order of
      the tokens. */
  lemma {:induction false} KeepNumericAppend(a: seq<string>, b: seq<string>)
    ensures KeepNumeric(a + b) == KeepNumeric(a) + KeepNumeric(b)
    decreases |a|
  {
    if |a| == 0 {
      assert a + b == b;
    } else {
      var head := if IsNumeric(a[0]) then [a[0]] else [];
      var ab := a[1..] + b;
      assert a + b == [a[0]] + ab;
      KeepNumericCons(a[0], ab);
      KeepNumericAppend(a[1..], b);
      AppendAssoc(head, KeepNumeric(a[1..]), KeepNumeric(b));
    }
  }

  lemma AppendAssoc(x: seq<string>, y: seq<string>, z: seq<string>)
    ensures x + (y + z) == (x + y) + z
  {
  }

  /** Filtering looks at the first token, then at the rest. */
  lemma KeepNumericCons(t: string, ts: seq<string>)
    ensures KeepNumeric([t] + ts) == (if IsNumeric(t) then [t] else []) + KeepNumeric(ts)
  {
    assert ([t] + ts)[0] == t && ([t] + ts)[1..] == ts;
  }

  /** Filtering keeps every token of an all-numeric list. */
  lemma {:induction false} KeepNumericAll(tokens: seq<string>)
    requires forall k :: 0 <= k < |tokens| ==> IsNumeric(tokens[k])
    ensures KeepNumeric(tokens) == tokens
    decreases |tokens|
  {
    if |tokens| > 0 {
      KeepNumericAll(tokens[1..]);
    }
  }

  /** The child pids `killServer` reads from `ps -o pid --no-heading --ppid`:
      the whitespace-separated tokens of its output that are numeric. A
      `null` from `shell_exec` splits like the empty string. */
  function ChildPids(psOutput: string): (r: seq<string>)
    ensures forall k :: 0 <= k < |r| ==> IsNumeric(r[k]) && NoSpace(r[k])
    ensures forall t :: t in r <==> t in SplitOnSpace(psOutput) && IsNumeric(t)
  {
    KeepNumeric(SplitOnSpace(psOutput))
  }

  function Decimals(pids: seq<nat>): (r: seq<string>)
    ensures |r| == |pids|
  {
    seq(|pids|, i requires 0 <= i < |pids| => NatToDecimal(pids[i]))
  }

  /** A `ps` listing of pids, padded and separated by whitespace runs of any
      lengths (as in right-aligned columns), parses back into exactly those
      pids, in order. */
  lemma ChildPidsOfListing(pids: seq<nat>, lead: string, seps: seq<string>, trail: string)
    requires |pids| >= 1 && |seps| == |pids| - 1
    requires Gaps(seps) && AllSpace(lead) && AllSpace(trail)
    ensures ChildPids(lead + Join(Decimals(pids), seps) + trail) == Decimals(pids)
  {
    var ds := Decimals(pids);
    var front: seq<string> := if |lead| > 0 then [""] else [];
    var back: seq<string> := if |trail| > 0 then [""] else [];
    var listing := lead + Join(ds, seps) + trail;
    assert SplitOnSpace(listing) == front + ds + back by {
      DecimalsAreNumericWords(pids);
      SplitJoinPadded(ds, seps, lead, trail);
    }
    assert KeepNumeric(front + ds + back) == ds by {
      DecimalsAreNumericWords(pids);
      KeepNumericPadded(ds, front, back);
    }
  }

  /** Empty padding pieces around numeric tokens are dropped. */
  lemma KeepNumericPadded(ds: seq<string>, front: seq<string>, back: seq<string>)
    requires forall k :: 0 <= k < |ds| ==> IsNumeric(ds[k])
    requires forall k :: 0 <= k < |front| ==> front[k] == ""
    requires forall k :: 0 <= k < |back| ==> back[k] == ""
    ensures KeepNumeric(front + ds + back) == ds
  {
    assert !IsNumeric("");
    KeepNumericAll(ds);
    KeepNumericNone(front);
    KeepNumericNone(back);
    KeepNumericAppend(front + ds, back);
    KeepNumericAppend(front, ds);
    assert [] + ds + [] == ds;
  }

  /** Formatted pids are non-empty, whitespace-free and numeric. */
  lemma DecimalsAreNumericWords(pids: seq<nat>)
    ensures forall k :: 0 <= k < |pids| ==>
              |Decimals(pids)[k]| > 0 && NoSpace(Decimals(pids)[k]) && IsNumeric(Decimals(pids)[k])
  {
    var ds := Decimals(pids);
    forall k | 0 <= k < |ds| ensures |ds[k]| > 0 && NoSpace(ds[k]) && IsNumeric(ds[k]) {
      DigitsAreNumeric(ds[k]);
    }
  }

  /** Output that holds no numeric token, such as nothing at all, yields no
      child pids. */
  lemma NoChildrenWithoutNumericTokens(psOutput: string)
    requires forall t :: t in SplitOnSpace(psOutput) ==> !IsNumeric(t)
    ensures ChildPids(psOutput) == []
  {
    var tokens := SplitOnSpace(psOutput);
    assert forall k :: 0 <= k < |tokens| ==> !IsNumeric(tokens[k]);
    KeepNumericNone(tokens);
  }

  /** Filtering drops every token of a list without numeric tokens. */
  lemma {:induction false} KeepNumericNone(tokens: seq<string>)
    requires forall k :: 0 <= k < |tokens| ==> !IsNumeric(tokens[k])
    ensures KeepNumeric(tokens) == []
    decreases |tokens|
  {
    if |tokens| > 0 {
      KeepNumericNone(tokens[1..]);
    }
  }

  // ---------------------------------------------------------------------
  // Kill commands
  // ---------------------------------------------------------------------

  function ChildQuery(pid: string): string {
    "ps -o pid --no-heading --ppid " + pid
  }

  function SigKill(pid: string): string {
    "kill -9 " + pid
  }

  function TreeKill(pid: string): string {
    "taskkill /F /T /PID " + pid + " >nul 2>&1"
  }

  /** The shell commands `killServer` runs, in order, for the process whose
      pid is spelled `pid`, given what the child query prints. */
  function KillCommands(windows: bool, pid: string, psOutput: string): (r: seq<string>)
    ensures windows ==> r == [TreeKill(pid)]
    ensures !windows ==> |r| == |ChildPids(psOutput)| + 2
    ensures !windows ==> r[0] == ChildQuery(pid) && r[|r| - 1] == SigKill(pid)
    ensures !windows ==> forall k :: 0 <= k < |ChildPids(psOutput)| ==> r[k + 1] == SigKill(ChildPids(psOutput)[k])
  {
    if windows then [TreeKill(pid)]
    else
      var children := ChildPids(psOutput);
      var kills := SigKills(children);
      var r := [ChildQuery(pid)] + kills + [SigKill(pid)];
      assert forall k :: 0 <= k < |children| ==> r[k + 1] == kills[k];
      r
  }

  /** One `kill -9` per pid, in order. */
  function SigKills(pids: seq<string>): (r: seq<string>)
    ensures |r| == |pids|
    ensures forall k :: 0 <= k < |pids| ==> r[k] == SigKill(pids[k])
  {
    seq(|pids|, k requires 0 <= k < |pids| => SigKill(pids[k]))
  }

  /** For a real `ps` listing of child processes, POSIX teardown kills each
      child in listing order and then the parent. */
  lemma KillOrderForListing(parent: nat, children: seq<nat>, lead: string, seps: seq<string>, trail: string)
    requires |children| >= 1 && |seps| == |children| - 1
    requires Gaps(seps) && AllSpace(lead) && AllSpace(trail)
    ensures var p := NatToDecimal(parent);
            KillCommands(false, p, lead + Join(Decimals(children), seps) + trail)
              == [ChildQuery(p)] + SigKills(Decimals(children)) + [SigKill(p)]
  {
    var listing := lead + Join(Decimals(children), seps) + trail;
    ChildPidsOfListing(children, lead, seps, trail);
    PosixKillCommands(NatToDecimal(parent), listing);
  }

  /** POSIX teardown in terms of the parsed child pids. */
  lemma PosixKillCommands(pid: string, psOutput: string)
    ensures KillCommands(false, pid, psOutput) == [ChildQuery(pid)] + SigKills(ChildPids(psOutput)) + [SigKill(pid)]
  {
  }

  /** With no children listed, POSIX teardown is the query and one kill of
      the parent. */
  lemma KillWithoutChildren(pid: string)
    ensures KillCommands(false, pid, "") == [ChildQuery(pid), SigKill(pid)]
  {
    assert SplitOnSpace("") == [""];
    NoChildrenWithoutNumericTokens("");
  }

}
