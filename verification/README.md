# EmbeddedServerController, modelled in Dafny

`EmbeddedServerController` starts PHP's built-in web server (`php -S`) for
functional tests. It checks that it can be started, spawns the server, polls
the port until the server answers, and later kills the server together with
its child processes. This project models that controller as pure functions
over an immutable record and proves properties of the model.

- `wrappers.dfy` (`Wrappers`): `Option` and `Result`.
- `php_strings.dfy` (`PhpStrings`): the PHP string primitives the controller
  depends on. These are `stripos`, backslash replacement,
  `preg_split('/\s+/', …)`, `is_numeric` and decimal formatting.
- `controller.dfy` (`Controller`): the controller record, the process
  handle (`null`, `false` or a process resource), the error kinds, the
  constructor with its environment checks, and `getHost`/`getPort`.
- `polling.dfy` (`Polling`): `waitUntil`, run over a sequence of clock
  readings (integer microseconds) and a sequence of callback answers.
- `commands.dfy` (`Commands`): platform detection, the launch command, the
  parsing of `ps` output into child pids, and the kill commands.
- `lifecycle.dfy` (`Lifecycle`): `start`, `stop`,
  `stopAndWaitForConnectionLoss` and `killServer`. Each returns a `Step`:
  the controller afterwards, the trace of external events (probes, the
  spawn, shell commands) and the outcome (returned or threw). An exception
  ends the call, so every event in the trace happens before it.
- `lifecycle_properties.dfy` (`LifecycleProperties`): properties that
  relate several calls, and the scenarios the tests exercise.

The outside world is passed in as data:
- the answer of each `canConnect` probe, as a bool;
- the result of `proc_open`, as a handle;
- the clock readings;
- what `ps` prints;
- `PHP_OS`, `php_sapi_name()`, the callable functions,
  `disable_functions`, and the paths that exist.

The model follows PHP 7.x throughout. The few places where another PHP
version behaves differently are listed under "Left out".

The model follows the code, not the behaviour one might expect:
- `killServer` never clears the process handle. A second `stop` therefore
  kills the same pid again (`StopTwiceKillsTwice`).
- A `proc_open` failure is never reported as a spawn failure. See Findings.

## Model

| member | source | states |
|---|---|---|
| Controller.Construct | src/EmbeddedServerController.php:90-106 | Construction succeeds exactly when the SAPI is `cli`, all three essential functions are enabled, the document root exists, and a given router exists. The checks run in source order: SAPI, then functions, then document root, then router. Under `cli`, a failed capability check is the construction error. On success the fields are the arguments and the handle is null. |
| Controller.VerifyEssentialFunctions | src/EmbeddedServerController.php:126-137 | No error exactly when `shell_exec`, `proc_open` and `fsockopen` are all enabled. Otherwise the error names a disabled function, and every function checked before it is enabled. |
| Controller.FirstDisabled | src/EmbeddedServerController.php:126-137 | Returns the index of the first disabled name at or after the start index. Every name before it is enabled. None means every remaining name is enabled. |
| Controller.FunctionEnabledIff | src/EmbeddedServerController.php:378-382 | `IsFunctionEnabled` holds iff the function is callable and no case-insensitive occurrence of its name appears anywhere in `disable_functions`. |
| Controller.DisabledFunctionBlocksConstruction | src/EmbeddedServerController.php:90-93 | Under `cli`, any disabled essential function makes construction fail. The error names a disabled function: that one or one checked earlier. Every function checked before the named one is enabled. |
| Controller.NullRouterNeverChecked | src/EmbeddedServerController.php:101-105 | With no router, the result depends on the file system only through the existence of the document root. |
| Controller.ConstructWithFsockopenDisabled | tests/MissingFunctionsTest.php:45-65 | With `disable_functions=fsockopen`, construction fails naming `fsockopen`. |
| Controller.SubstringRuleMatchesLongerNames | src/EmbeddedServerController.php:378-382 | Because of the substring rule, disabling `my_PROC_OPEN_wrapper` also disables `proc_open`. |
| Controller.ConstructRejectsMissingDocumentRoot | tests/EmbeddedServerControllerTest.php:64-70 | A document root that does not exist makes construction fail with the document-root error. |
| Controller.GetHost | src/EmbeddedServerController.php:199-210 | Never returns `0.0.0.0`. A requested host other than `0.0.0.0` comes back unchanged. With no request, a stored host other than `0.0.0.0` comes back unchanged. The result is `127.0.0.1` exactly when the host in effect is `0.0.0.0` or `127.0.0.1`. |
| Controller.GetHostIdempotent | src/EmbeddedServerController.php:199-210 | Resolving an already resolved host again gives the same host. |
| Controller.GetHostDefaultsToConfigured | src/EmbeddedServerController.php:199-203 | Requesting the stored host explicitly gives the same result as requesting nothing. |
| Controller.GetPortReturnsConstructorPort | src/EmbeddedServerController.php:216-219 | `GetPort` of a constructed controller is the port it was given. Its default host is the given host, with `0.0.0.0` mapped to `127.0.0.1`. |
| Controller.GetHostExamples | tests/EmbeddedServerControllerTest.php:104-115 | The five host resolutions that the test asserts. |
| PhpStrings.Stripos | src/EmbeddedServerController.php:381 | Returns the offset of the first case-insensitive occurrence. Returns none (PHP's `false`) exactly when there is no occurrence. |
| PhpStrings.FindFrom | src/EmbeddedServerController.php:381 | Returns the first case-insensitive occurrence at or after the given offset, or none when no later offset matches. |
| PhpStrings.ReplaceBackslashes | src/EmbeddedServerController.php:247-248 | Keeps the length. No backslash remains. Each backslash becomes `/` and every other character is unchanged. |
| PhpStrings.SplitOnSpace | src/EmbeddedServerController.php:338 | Returns at least one piece. No piece contains whitespace. Only the first and last pieces can be empty. Leading whitespace gives an empty first piece. Which pieces come out is fixed by the laws in the next three rows. |
| PhpStrings.SplitAfterWord | src/EmbeddedServerController.php:338 | A whitespace-free prefix is glued onto the first piece of what follows it. No piece boundary falls inside a word. |
| PhpStrings.SplitAfterSpace | src/EmbeddedServerController.php:338 | A non-empty whitespace run, followed by a word or by the end, contributes exactly one empty piece before the pieces of what follows. |
| PhpStrings.SplitTrail | src/EmbeddedServerController.php:338 | The empty string splits into one empty piece, and a non-empty whitespace run into two. With the two laws above, this fixes the split of every string. A string ending in whitespace therefore has an empty last piece. |
| PhpStrings.SplitKeepsNonSpace | src/EmbeddedServerController.php:338 | Gluing the pieces back together gives the input with all whitespace removed. |
| PhpStrings.SplitJoinPadded | src/EmbeddedServerController.php:338 | Take non-empty, whitespace-free pieces, join them with whitespace runs of any lengths, and pad both ends with whitespace. Splitting the result returns exactly those pieces, plus one empty piece for each non-empty padding. |
| PhpStrings.DigitsAreNumeric | src/EmbeddedServerController.php:340 | A non-empty run of decimal digits passes `is_numeric`. |
| PhpStrings.NumericExamples | src/EmbeddedServerController.php:340 | `IsNumeric`, as `is_numeric` decides for whitespace-free tokens: `+1.5` and `2E-3` are numeric. `1.2.3`, a lone `-`, `1e` and `0x1A` are not. |
| PhpStrings.NumericHasDigit | src/EmbeddedServerController.php:340 | Every numeric token contains a decimal digit, so separators and empty pieces are never taken for pids. |
| PhpStrings.DecimalRoundTrip | src/EmbeddedServerController.php:316-345 | Reading back the decimal spelling of a pid gives the pid. |
| PhpStrings.DecimalInjective | src/EmbeddedServerController.php:316-345 | Different pids have different spellings in the kill commands. |
| PhpStrings.IntToDecimal | src/EmbeddedServerController.php:244-246 | `%d` output: a leading minus exactly for negative values, followed by digits whose value is the magnitude. There is no leading zero: zero is spelled exactly `0`. |
| Polling.TruncateToInt | src/EmbeddedServerController.php:287 | `(int)` truncates toward zero: the result lies within one unit of the input, on the side of zero. |
| Polling.WaitUntil | src/EmbeddedServerController.php:281-296 | The callback runs at least once. Every answer before the last is false. Every retry happened while the elapsed time was within the deadline. The result is true iff some evaluated answer was true. A false result means the reading after the last evaluation was past the deadline. |
| Polling.RetryFrom | src/EmbeddedServerController.php:286-292 | The loop satisfies the same guarantees as `WaitUntil` from any entry point, given that all earlier answers were false and all earlier readings were within the deadline. |
| Polling.WaitUntilMetIff | src/EmbeddedServerController.php:281-296 | Reference reading: the wait succeeds iff some answer is true at an evaluation whose preceding loop tests were all within the deadline. |
| Polling.FirstAnswerTrueStopsAtOnce | src/EmbeddedServerController.php:283-285 | A true first answer returns true after one evaluation, whatever the clock says. |
| Polling.NegativeTimeoutEvaluatesOnce | src/EmbeddedServerController.php:283-293 | With a timeout of -1 or less and a clock that does not run backwards, the callback runs exactly once. |
| Polling.SubSecondTimeoutStillRetriesWithinSameTick | src/EmbeddedServerController.php:287 | A timeout of 0.5 truncates to 0. Because the loop tests with `<=`, the callback is still retried while the clock has not advanced, and no longer once it has. |
| Commands.IsWindows | src/EmbeddedServerController.php:260-263 | True iff `PHP_OS` has at least three characters and they spell `WIN` in any case. |
| Commands.IsWindowsExamples | src/EmbeddedServerController.php:260-263 | `WINNT`, `WIN32` and `Windows` are Windows. `Linux`, `Darwin`, `CYGWIN_NT-10.0` and `WI` are not. |
| Commands.RouterArgument | src/EmbeddedServerController.php:248 | A given router comes back with every backslash replaced by `/`. A null router gives the empty string. No backslash remains. |
| Commands.LaunchCommand | src/EmbeddedServerController.php:232-248 | A backslash appears in the command only if the host has one. The command starts with `exec ` exactly on POSIX. On Windows it ends with the background redirection ` >nul 2>&1 &`. `Lifecycle.StartCommand` is this command for the controller's fields and `PHP_OS`. |
| Commands.LaunchCommandCarriesArguments | src/EmbeddedServerController.php:235-248 | Without the platform wrapping, the command is `php -S <host>:`, then the `%d` spelling of the port, then ` -t `, the document root with backslashes replaced, a space, and the router argument. |
| Commands.LaunchTemplatesShareInvocation | src/EmbeddedServerController.php:235-243 | The POSIX command is `exec ` followed by the Windows command with its background redirection removed. |
| Commands.PosixLaunchPrefix | src/EmbeddedServerController.php:235-245 | The POSIX command begins `exec php -S <host>:`, using the configured host as given. |
| Commands.KeepNumeric | src/EmbeddedServerController.php:339-344 | Keeps only numeric tokens, keeps every numeric token, and adds nothing. |
| Commands.KeepNumericAppend | src/EmbeddedServerController.php:339-344 | Filtering distributes over concatenation, so the tokens keep their order. |
| Commands.KeepNumericAll | src/EmbeddedServerController.php:339-344 | A list of numeric tokens is kept whole. |
| Commands.KeepNumericNone | src/EmbeddedServerController.php:339-344 | A list with no numeric token is dropped entirely. |
| Commands.ChildPids | src/EmbeddedServerController.php:338-344 | Each returned pid is numeric and whitespace-free. A token is returned iff it is a whitespace-separated token of the `ps` output that is numeric. |
| Commands.ChildPidsOfListing | src/EmbeddedServerController.php:338-344 | A `ps` listing of pids, separated by whitespace runs of any lengths and padded with whitespace at both ends, parses back into exactly those pids, in order. |
| Commands.NoChildrenWithoutNumericTokens | src/EmbeddedServerController.php:338-344 | Output without numeric tokens yields no child pids. |
| Commands.KillCommands | src/EmbeddedServerController.php:317-346 | Windows issues exactly one `taskkill /F /T` for the pid. POSIX issues the child query, then one `kill -9` per child in list order, then `kill -9` of the parent last. |
| Commands.KillOrderForListing | src/EmbeddedServerController.php:337-345 | For any such `ps` listing, POSIX teardown is the child query, then one `kill -9` per listed child in order, then the `kill -9` of the parent. |
| Commands.KillWithoutChildren | src/EmbeddedServerController.php:338-345 | With empty `ps` output, POSIX teardown is the query followed by one kill of the parent. |
| Lifecycle.PidOfDenotesPid | src/EmbeddedServerController.php:314-316 | For a process, the pid interpolated into kill commands is its decimal spelling: digits only, no leading zero unless the pid is 0, and reading it back gives the pid. For any other handle it is empty, because `proc_get_status` yields null. |
| Lifecycle.KillServer | src/EmbeddedServerController.php:309-347 | Emits only shell commands, at least one. On Windows it is the single tree kill of the handle's pid. On POSIX the last command is `kill -9` of that pid. |
| Lifecycle.Start | src/EmbeddedServerController.php:147-163 | Probes the port first, and every probe targets the probe host. If the port is occupied, it throws the blocking error with no spawn, no kill and the handle unchanged. Otherwise the spawn comes second and its result becomes the handle. A null handle throws before any polling. It returns iff the wait succeeds. A failed wait on any other handle ends with the kill commands, then throws the timeout error with the truncated timeout. |
| Lifecycle.AwaitServer | src/EmbeddedServerController.php:153-162 | After a spawn: the events so far are followed directly by exactly one probe of the probe address per evaluation of the wait. It returns iff the wait succeeds, and then the trace ends with those probes, so nothing is killed. Otherwise the probes are followed by exactly the kill commands, and it throws the timeout error. |
| Lifecycle.Launch | src/EmbeddedServerController.php:147-163 | The path of `start` on a free port: probe, then spawn, and the spawn's result becomes the handle. A null handle throws the spawn error after those two events. Otherwise the wait's probes follow the spawn. It returns iff the wait succeeds, and then nothing follows the probes. A failed wait appends exactly the kill commands directly after the probes, and throws the timeout error. |
| Lifecycle.StartRunsTheWait | src/EmbeddedServerController.php:153-162 | For `start` on a free port with a non-null handle: events 3 onward begin with exactly the wait's probes of the probe address, one per evaluation. A successful start ends right after them, with no shell command, so a returning start never kills the server. A start that times out has only the kill commands after the probes. |
| Lifecycle.WaitUntilServerIsDown | src/EmbeddedServerController.php:363-369 | Only probes of the controller's address, at least one and at most one per reading. Every probe but the last was answered, and each retry came within the deadline. It stops at the first unanswered probe, or once the next reading is past the deadline. |
| Lifecycle.StartChecked | src/EmbeddedServerController.php:221-230 | Corrected start: any non-process spawn result throws the spawn error. The trace is exactly the probe and the spawn, and the handle holds what `proc_open` returned. For real processes it agrees with `Start`. A kill is only ever issued while a process is held. |
| Lifecycle.Stop | src/EmbeddedServerController.php:302-307 | Never changes the controller and never throws. It emits nothing exactly when the handle is null, and otherwise emits the kill commands. |
| Lifecycle.StopAndWaitForConnectionLoss | src/EmbeddedServerController.php:356-369 | Never throws and never changes the controller. Its trace is the `stop` trace followed by n probes, with 1 <= n <= the number of readings. Every probe but the last was answered, and each retry came within the deadline. Probing ends at the first unanswered probe, or when the next reading is past the deadline. |
| Lifecycle.WaitForLoss | src/EmbeddedServerController.php:363-369 | `waitUntil` on the negated probe answers, in terms of the answers themselves: it stops at the first failed probe inside the window, or once the clock passes the deadline. |
| LifecycleProperties.SecondControllerOnBusyPortIsRefused | tests/EmbeddedServerControllerTest.php:86-100 | A second controller on the host and port of a first one sends its one probe to the first controller's probe address. The first server being up enters only as the answer to that probe. When it is answered, the second controller is refused with the blocking error, spawns nothing and kills nothing. |
| LifecycleProperties.TimeoutKillsSpawnedServerFirst | src/EmbeddedServerController.php:153-162 | When the server never comes up, the last event before the timeout exception kills the spawned pid: `kill -9` on POSIX, the tree kill on Windows. |
| LifecycleProperties.StopWithoutHandleDoesNothing | src/EmbeddedServerController.php:302-307 | `stop` without a handle returns with an empty trace and an unchanged controller. |
| LifecycleProperties.StopTwiceKillsTwice | src/EmbeddedServerController.php:309-347 | The handle is never cleared, so a second `stop` repeats the same kill commands. |
| LifecycleProperties.StopAfterStartKillsSpawnedTree | src/EmbeddedServerController.php:337-345 | After a successful POSIX start, `stop` kills the listed children in order and then the spawned pid. |
| LifecycleProperties.BindAllInterfacesProbeLoopback | src/EmbeddedServerController.php:173-179 | A controller bound to `0.0.0.0` sends every probe to `127.0.0.1`. |
| LifecycleProperties.BindAllInterfacesLaunch | src/EmbeddedServerController.php:244-245 | The same controller is launched bound to `0.0.0.0` itself. |
| LifecycleProperties.FailedSpawnGoesUndetected | src/EmbeddedServerController.php:221-230 | As written, on POSIX: when `proc_open` returns `false` and the wait fails after n probes, `start` emits the probe, the spawn and n probes. It then runs the child query and `kill -9` with an empty pid, and throws the timeout error, not the spawn error. |
| LifecycleProperties.KillWithoutHandle | src/EmbeddedServerController.php:314-345 | Tearing down a `false` handle on POSIX with empty `ps` output: the child query and the kill both carry an empty pid. |
| LifecycleProperties.SpawnFailureUnreachable | src/EmbeddedServerController.php:224 | For every result `proc_open` can return, a start on a free port never throws the spawn error. Its third event is always a probe of the probe address. |
| LifecycleProperties.StartUpScenario | tests/EmbeddedServerControllerTest.php:74-81 | For any host, port and document root, with the default timeout: on a free port, a server that answers the first probe lets `start` return while holding the process. The trace is exactly the probe, the spawn and one more probe. The corrected start gives the same result. |
| LifecycleProperties.ShutDownScenario | src/EmbeddedServerController.php:356-369 | For any host, port and document root on a POSIX system, with the default timeout: `stopAndWaitForConnectionLoss` lists the process's children (none), kills the process, probes twice (answered, then not), and returns. |
| LifecycleProperties.DefaultDeadline | src/EmbeddedServerController.php:147 | The default timeout of 10 seconds, shared with line 356, is a deadline of 10 000 000 microseconds. |

## Findings

| source | as written | input that shows it | evidently intended | confidence | as-written member | corrected member |
|---|---|---|---|---|---|---|
| src/EmbeddedServerController.php:224 | The spawn check compares the handle with `null`. `proc_open` reports failure with `false`, so the check never fires. | `proc_open` fails (returns `false`) on a free port | Treat any non-process result as a failed spawn. Throw "Couldn't start the server" before polling, and issue no kill with an empty pid. | high; not executed | LifecycleProperties.FailedSpawnGoesUndetected | Lifecycle.StartChecked |

`Lifecycle.Start` models the code as written and is what the other
lifecycle properties describe. `Lifecycle.StartChecked` agrees with it
whenever a process was spawned. The start-up scenario uses it.

## Left out

- Socket probing (`fsockopen`/`fclose` and swapping the error handler) is left out. Each `canConnect` answer is an input boolean.
- Process spawning (`proc_open` and its pipes) is left out. The result is an input handle: `null`, `false` or a process with a pid.
- `proc_get_status` is reduced to reading the pid from the handle.
- Running `ps`, `kill -9` and `taskkill` is left out. They appear as shell-command events; the `ps` output is an input string.
- Wall-clock time is left out. `microtime(true)` floats are replaced by integer microsecond readings, and float rounding in the elapsed-time subtraction is not modelled.
- Exception message texts and the `echo "Killing …"` output are left out. Errors are modelled by kind; the timeout error carries the `%d`-formatted value.
- The race between the occupancy probe and the spawn is left out, as is anything the child server does concurrently. Each probe answer is independent data.
- `Polling.WaitUntil`: requires a clock reading past the deadline before the readings run out, because the source loops for ever when every answer is false and the clock never gets there. It stops at the first true answer whatever the clock does; such a run is represented by appending a past-deadline reading the loop never reads.
- `Lifecycle.PidOf`: as in PHP 7, `proc_get_status(false)` warns and yields null. PHP 8 throws a `TypeError` there instead.
- `PhpStrings.Stripos`: folds ASCII letters only. This is PHP 7 under the default C locale; other locales may fold more letters. An empty needle returns 0 here, where PHP 7 warns and returns false. The controller never passes one, because its needles are the three constant function names.
- `PhpStrings.IsNumeric`: models `is_numeric` for strings without whitespace only. The leading whitespace PHP 7 also accepts cannot occur, because split tokens never contain whitespace.
- `PhpStrings.IsSpace`: the PCRE `\s` class of space and code points 9 to 13, vertical tab included, as in the PCRE bundled with every PHP 7 release (vertical tab joined `\s` in PCRE 8.34). Non-ASCII whitespace is not matched, since the pattern has no `u` flag.
- `Commands.LaunchCommand`: takes the port as an integer. PHP's `%d` would also convert a string port.
- The `shouldStartupAndShutdownProperly` test's live connectivity is not modelled. `LifecycleProperties.StartUpScenario` covers only the controller's side.
- `Lifecycle.StopAndWaitForConnectionLoss`: the wait result is discarded, as in the source, so nothing is promised about connectivity after the call returns.
