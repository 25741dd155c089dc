/** The `EmbeddedServerController` record and everything about it that does
    not involve a running process: construction with its environment checks,
    and the host/port accessors that separate the bind address from the
    probe address. */
module Controller {
  import opened Wrappers
  import opened PhpStrings

  /** The value held in `$processHandle`: `null` until `start` assigns the
      result of `proc_open`, which is either `false` (spawn failed) or a
      process resource whose status reports the pid. */
  datatype Handle = Null | False | Resource(pid: nat)

  /** The causes of the `RuntimeException`s the controller throws. */
  datatype Error =
    | WrongVariant                  // not running under the `cli` SAPI
    | FunctionDisabled(name: string) // `shell_exec`, `proc_open` or `fsockopen` unavailable
    | DocumentRootMissing
    | RouterMissing
    | PortBlocked                   // something already answers on host:port
    | SpawnFailed                   // "Couldn't start the server"
    | StartupTimeout(seconds: int)  // the timeout as printed by `%d`

  datatype ServerController = ServerController(
    host: string,
    port: int,
    documentRoot: string,
    router: Option<string>,
    handle: Handle)

  /** What the constructor reads from the PHP runtime and the file system:
      `php_sapi_name()`, the functions `is_callable` accepts,
      `ini_get('disable_functions')` and the paths `file_exists` accepts. */
  datatype Env = Env(
    sapiName: string,
    callable: set<string>,
    disableFunctions: string,
    existingPaths: set<string>)

  const AnyInterface: string := "0.0.0.0"
  const Loopback: string := "127.0.0.1"

  /** The functions the controller cannot work without, in the order the
      constructor checks them. */
  const EssentialFunctions: seq<string> := ["shell_exec", "proc_open", "fsockopen"]

  // ---------------------------------------------------------------------
  // Capability checks
  // ---------------------------------------------------------------------

  /** `isFunctionEnabled`: callable, and not named anywhere inside the
      `disable_functions` setting, compared without regard to case. */
  predicate IsFunctionEnabled(env: Env, name: string) {
    name in env.callable && Stripos(env.disableFunctions, name).None?
  }

  /** The substring rule in terms of occurrences: a function is enabled
      exactly when it is callable and no case-insensitive occurrence of its
      name appears in `disable_functions`. */
  lemma FunctionEnabledIff(env: Env, name: string)
    ensures IsFunctionEnabled(env, name)
        <==> name in env.callable
             && forall i :: 0 <= i <= |env.disableFunctions| ==> !MatchesAt(env.disableFunctions, name, i)
  {
  }

  /** The index of the first name in `names[from..]` that is not enabled. */
  function FirstDisabled(env: Env, names: seq<string>, from: nat): (r: Option<nat>)
    requires from <= |names|
    ensures r.Some? ==> from <= r.value < |names| && !IsFunctionEnabled(env, names[r.value])
    ensures r.Some? ==> forall j :: from <= j < r.value ==> IsFunctionEnabled(env, names[j])
    ensures r.None? ==> forall j :: from <= j < |names| ==> IsFunctionEnabled(env, names[j])
    decreases |names| - from
  {
    if from == |names| then None
    else if !IsFunctionEnabled(env, names[from]) then Some(from)
    else FirstDisabled(env, names, from + 1)
  }

  /** `verifyThatEssentialFunctionsAreEnabledOrThrowException`: the error for
      the first essential function, in checking order, that is disabled. */
  function VerifyEssentialFunctions(env: Env): (r: Option<Error>)
    ensures r.None? <==> forall k :: 0 <= k < |EssentialFunctions| ==> IsFunctionEnabled(env, EssentialFunctions[k])
    ensures r.Some? ==> exists k :: 0 <= k < |EssentialFunctions|
                          && r.value == FunctionDisabled(EssentialFunctions[k])
                          && !IsFunctionEnabled(env, EssentialFunctions[k])
                          && forall j :: 0 <= j < k ==> IsFunctionEnabled(env, EssentialFunctions[j])
  {
    match FirstDisabled(env, EssentialFunctions, 0)
    case None => None
    case Some(k) => Some(FunctionDisabled(EssentialFunctions[k]))
  }

  // ---------------------------------------------------------------------
  // Construction
  // ---------------------------------------------------------------------

  /** `__construct($host, $port, $documentRoot, $router = null)`: the SAPI
      check, the capability checks, then the document root, then the router
      when one is given. A failure yields no controller at all. */
  function Construct(env: Env, host: string, port: int, documentRoot: string, router: Option<string>)
    : (r: Result<ServerController, Error>)
    ensures r.Success? <==>
              && env.sapiName == "cli"
              && (forall k :: 0 <= k < |EssentialFunctions| ==> IsFunctionEnabled(env, EssentialFunctions[k]))
              && documentRoot in env.existingPaths
              && (router.None? || router.value in env.existingPaths)
    ensures r.Success? ==> r.value == ServerController(host, port, documentRoot, router, Null)
    ensures env.sapiName != "cli" ==> r == Failure(WrongVariant)
    ensures env.sapiName == "cli" && VerifyEssentialFunctions(env).Some? ==>
              r == Failure(VerifyEssentialFunctions(env).value)
    ensures r == Failure(DocumentRootMissing) <==>
              && env.sapiName == "cli"
              && VerifyEssentialFunctions(env).None?
              && documentRoot !in env.existingPaths
    ensures r == Failure(RouterMissing) <==>
              && env.sapiName == "cli"
              && VerifyEssentialFunctions(env).None?
              && documentRoot in env.existingPaths
              && router.Some? && router.value !in env.existingPaths
  {
    if env.sapiName != "cli" then Failure(WrongVariant)
    else if VerifyEssentialFunctions(env).Some? then Failure(VerifyEssentialFunctions(env).value)
    else if documentRoot !in env.existingPaths then Failure(DocumentRootMissing)
    else if router.Some? && router.value !in env.existingPaths then Failure(RouterMissing)
    else Success(ServerController(host, port, documentRoot, router, Null))
  }

  /** A disabled essential function makes construction fail, naming the first
      disabled one in checking order, before any path is looked at. */
  lemma DisabledFunctionBlocksConstruction(env: Env, host: string, port: int, documentRoot: string,
                                           router: Option<string>, k: nat)
    requires env.sapiName == "cli"
    requires k < |EssentialFunctions| && !IsFunctionEnabled(env, EssentialFunctions[k])
    ensures exists j :: 0 <= j <= k
                        && Construct(env, host, port, documentRoot, router)
                           == Failure(FunctionDisabled(EssentialFunctions[j]))
                        && !IsFunctionEnabled(env, EssentialFunctions[j])
                        && forall i :: 0 <= i < j ==> IsFunctionEnabled(env, EssentialFunctions[i])
  {
    var first := FirstDisabled(env, EssentialFunctions, 0);
    assert first.Some?;
  }

  /** The outcome with no router depends on the file system only through the
      document root: a null router is never looked up. */
  lemma NullRouterNeverChecked(env: Env, paths: set<string>, host: string, port: int, documentRoot: string)
    requires documentRoot in env.existingPaths <==> documentRoot in paths
    ensures Construct(env, host, port, documentRoot, None)
         == Construct(env.(existingPaths := paths), host, port, documentRoot, None)
  {
    assert VerifyEssentialFunctions(env) == VerifyEssentialFunctions(env.(existingPaths := paths));
  }

  /** An environment in which everything the constructor checks is fine
      except for the given `disable_functions` setting. */
  function CliEnv(disableFunctions: string, paths: set<string>): Env {
    Env("cli", {"shell_exec", "proc_open", "fsockopen"}, disableFunctions, paths)
  }

  /** Running with `-d disable_functions=fsockopen` makes construction throw,
      and the error names `fsockopen`. */
  lemma ConstructWithFsockopenDisabled(documentRoot: string)
    ensures Construct(CliEnv("fsockopen", {documentRoot}), AnyInterface, 1234, documentRoot, None)
         == Failure(FunctionDisabled("fsockopen"))
  {
    var env := CliEnv("fsockopen", {documentRoot});
    assert !MatchesAt("fsockopen", "shell_exec", 0);
    assert Lower("fsockopen"[0..9])[0] == 'f' && Lower("proc_open")[0] == 'p';
    assert !MatchesAt("fsockopen", "proc_open", 0);
    assert IsFunctionEnabled(env, "shell_exec");
    assert IsFunctionEnabled(env, "proc_open");
    assert MatchesAt("fsockopen", "fsockopen", 0);
  }

  /** The substring rule reaches beyond exact names: disabling a function
      whose name merely contains `proc_open`, in any case, also counts as
      disabling `proc_open`. */
  lemma SubstringRuleMatchesLongerNames()
    ensures !IsFunctionEnabled(CliEnv("my_PROC_OPEN_wrapper", {}), "proc_open")
  {
    assert "my_PROC_OPEN_wrapper"[3..12] == "PROC_OPEN";
    assert MatchesAt("my_PROC_OPEN_wrapper", "proc_open", 3);
  }

  /** A missing document root makes construction fail. */
  lemma ConstructRejectsMissingDocumentRoot(paths: set<string>, host: string, port: int, router: Option<string>)
    requires "non-existing-directory-xx" !in paths
    ensures Construct(CliEnv("", paths), host, port, "non-existing-directory-xx", router)
         == Failure(DocumentRootMissing)
  {
    var env := CliEnv("", paths);
    assert forall k :: 0 <= k < |EssentialFunctions| ==> IsFunctionEnabled(env, EssentialFunctions[k]) by {
      forall k | 0 <= k < |EssentialFunctions|
        ensures IsFunctionEnabled(env, EssentialFunctions[k])
      {
        assert forall i :: 0 <= i <= 0 ==> !MatchesAt("", EssentialFunctions[k], i);
      }
    }
  }

  // ---------------------------------------------------------------------
  // Host and port
  // ---------------------------------------------------------------------

  /** `getHost($host = null)`: the requested host, or the configured one when
      none is requested, with the any-interface address `0.0.0.0` replaced by
      the loopback address it can be reached on. */
  function GetHost(c: ServerController, requested: Option<string>): (r: string)
    ensures r != AnyInterface
    ensures requested.Some? && requested.value != AnyInterface ==> r == requested.value
    ensures requested.None? && c.host != AnyInterface ==> r == c.host
    ensures r == Loopback <==>
              (if requested.Some? then requested.value else c.host) in {AnyInterface, Loopback}
  {
    var host := if requested.None? then c.host else requested.value;
    if host == AnyInterface then Loopback else host
  }

  /** `getPort()`. */
  function GetPort(c: ServerController): int {
    c.port
  }

  /** The address used for connection probes: `getHost()` with no override. */
  function ProbeHost(c: ServerController): string {
    GetHost(c, None)
  }

  /** Resolving an already resolved host changes nothing. */
  lemma GetHostIdempotent(c: ServerController, d: ServerController, requested: Option<string>)
    ensures GetHost(d, Some(GetHost(c, requested))) == GetHost(c, requested)
  {
  }

  /** Asking for the configured host explicitly is the same as asking for
      nothing. */
  lemma GetHostDefaultsToConfigured(c: ServerController)
    ensures GetHost(c, Some(c.host)) == GetHost(c, None)
  {
  }

  /** The port a successfully constructed controller reports is the one it
      was given. */
  lemma GetPortReturnsConstructorPort(env: Env, host: string, port: int, documentRoot: string,
                                      router: Option<string>)
    requires Construct(env, host, port, documentRoot, router).Success?
    ensures GetPort(Construct(env, host, port, documentRoot, router).value) == port
    ensures GetHost(Construct(env, host, port, documentRoot, router).value, None)
         == (if host == AnyInterface then Loopback else host)
  {
  }

  /** The host resolutions the controller's own tests pin down. */
  lemma GetHostExamples(port: int, documentRoot: string)
    ensures GetHost(ServerController("0.0.0.0", port, documentRoot, None, Null), None) == "127.0.0.1"
    ensures GetHost(ServerController("192.168.1.100", port, documentRoot, None, Null), None) == "192.168.1.100"
    ensures GetHost(ServerController("192.168.1.100", port, documentRoot, None, Null), Some("0.0.0.0")) == "127.0.0.1"
    ensures GetHost(ServerController("192.168.1.100", port, documentRoot, None, Null), Some("127.0.0.1")) == "127.0.0.1"
    ensures GetHost(ServerController("192.168.1.100", port, documentRoot, None, Null), Some("192.168.1.100")) == "192.168.1.100"
  {
  }

}
