/**
 * Where the script finds its two settings, `get_chromedriver_path` and
 * `get_bulb_ip`: a positional command-line argument, else an environment
 * variable, else a built-in default.
 */
module Config {
  import opened Wrappers

  const DriverPathVar := "CHROMEDRIVER_PATH"
  const BulbIpVar := "BULB_IP"
  const DefaultDriverFile := "chromedriver.exe"
  const DefaultBulbIp := "192.168.1.100"
  /** The exit status when no chromedriver exists at the chosen path. */
  const MissingDriverExit := 1

  /** The positional argument at `index` (argv[0] being the script), if given. */
  function Arg(argv: seq<string>, index: nat): (a: Option<string>)
    ensures a.Some? <==> |argv| > index
    ensures a.Some? ==> a.value == argv[index]
  {
    if |argv| > index then Some(argv[index]) else None
  }

  /** The environment variable `name`, if set. */
  function Env(env: map<string, string>, name: string): (v: Option<string>)
    ensures v.Some? <==> name in env
    ensures v.Some? ==> v.value == env[name]
  {
    if name in env then Some(env[name]) else None
  }

  /** Source `k` is the first one present. */
  ghost predicate FirstSomeAt(sources: seq<Option<string>>, k: int) {
    0 <= k < |sources| && sources[k].Some? && forall j :: 0 <= j < k ==> sources[j].None?
  }

  /** The value of the first present source, in order, else `fallback`. */
  function FirstPresent(sources: seq<Option<string>>, fallback: string): (r: string)
    ensures forall k :: FirstSomeAt(sources, k) ==> r == sources[k].value
    ensures (forall j :: 0 <= j < |sources| ==> sources[j].None?) ==> r == fallback
  {
    if sources == [] then fallback
    else if sources[0].Some? then sources[0].value
    else FirstPresent(sources[1..], fallback)
  }

  /** Once a source is present, nothing after it, nor the fallback, can change the result. */
  lemma {:induction false} FirstPresentShadows(a: seq<Option<string>>, b: seq<Option<string>>,
                                              fa: string, fb: string, k: nat)
    requires k < |a| && k < |b|
    requires a[..k + 1] == b[..k + 1]
    requires a[k].Some?
    ensures FirstPresent(a, fa) == FirstPresent(b, fb)
    decreases k
  {
    assert a[0] == a[..k + 1][0] == b[..k + 1][0] == b[0];
    if a[0].None? {
      assert a[1..][..k] == a[..k + 1][1..] == b[..k + 1][1..] == b[1..][..k];
      FirstPresentShadows(a[1..], b[1..], fa, fb, k - 1);
    }
  }

  /** The path get_chromedriver_path settles on before checking that it exists. */
  function DriverCandidate(argv: seq<string>, env: map<string, string>, cwd: string,
                           join: (string, string) -> string): (path: string)
    ensures |argv| > 1 ==> path == argv[1]
    ensures |argv| <= 1 && DriverPathVar in env ==> path == env[DriverPathVar]
    ensures |argv| <= 1 && DriverPathVar !in env ==> path == join(cwd, DefaultDriverFile)
  {
    var sources := [Arg(argv, 1), Env(env, DriverPathVar)];
    assert |argv| > 1 ==> FirstSomeAt(sources, 0);
    assert |argv| <= 1 && DriverPathVar in env ==> FirstSomeAt(sources, 1);
    FirstPresent(sources, join(cwd, DefaultDriverFile))
  }

  /**
   * get_chromedriver_path: the candidate path when it exists, otherwise an
   * exit with status 1. `pathExists` stands for the file-system check.
   */
  function ChromeDriverPath(argv: seq<string>, env: map<string, string>, cwd: string,
                            join: (string, string) -> string,
                            pathExists: string -> bool): (r: Result<string, int>)
    ensures r.Success? <==> pathExists(DriverCandidate(argv, env, cwd, join))
    ensures r.Success? ==> r.value == DriverCandidate(argv, env, cwd, join)
    ensures r.Failure? ==> r.error == MissingDriverExit
  {
    var path := DriverCandidate(argv, env, cwd, join);
    if pathExists(path) then Success(path) else Failure(MissingDriverExit)
  }

  /** get_bulb_ip: argv[2], else $BULB_IP, else the built-in address. It never fails. */
  function BulbIp(argv: seq<string>, env: map<string, string>): (ip: string)
    ensures |argv| > 2 ==> ip == argv[2]
    ensures |argv| <= 2 && BulbIpVar in env ==> ip == env[BulbIpVar]
    ensures |argv| <= 2 && BulbIpVar !in env ==> ip == DefaultBulbIp
  {
    var sources := [Arg(argv, 2), Env(env, BulbIpVar)];
    assert |argv| > 2 ==> FirstSomeAt(sources, 0);
    assert |argv| <= 2 && BulbIpVar in env ==> FirstSomeAt(sources, 1);
    FirstPresent(sources, DefaultBulbIp)
  }

  /** A command-line bulb address hides whatever the environment says. */
  lemma BulbIpArgShadowsEnv(argv: seq<string>, env1: map<string, string>, env2: map<string, string>)
    requires |argv| > 2
    ensures BulbIp(argv, env1) == BulbIp(argv, env2)
  {
  }

  /** Likewise for the driver path, which then also ignores the working directory and the path join. */
  lemma DriverArgShadowsEnv(argv: seq<string>, env1: map<string, string>, env2: map<string, string>,
                            cwd1: string, cwd2: string,
                            join1: (string, string) -> string, join2: (string, string) -> string)
    requires |argv| > 1
    ensures DriverCandidate(argv, env1, cwd1, join1) == DriverCandidate(argv, env2, cwd2, join2)
  {
  }

  /** The settings the script starts with. */
  datatype Settings = Settings(driverPath: string, bulbIp: string)

  /**
   * The start-up order: the driver path is resolved first and a missing
   * driver ends the process before the bulb address is looked up.
   */
  function Startup(argv: seq<string>, env: map<string, string>, cwd: string,
                   join: (string, string) -> string,
                   pathExists: string -> bool): (r: Result<Settings, int>)
    ensures r.Success? <==> pathExists(DriverCandidate(argv, env, cwd, join))
    ensures r.Success? ==> (r.value.driverPath == DriverCandidate(argv, env, cwd, join)
                            && pathExists(r.value.driverPath)
                            && r.value.bulbIp == BulbIp(argv, env))
    ensures r.Failure? ==> r.error == MissingDriverExit
  {
    match ChromeDriverPath(argv, env, cwd, join, pathExists)
    case Failure(code) => Failure(code)
    case Success(path) => Success(Settings(path, BulbIp(argv, env)))
  }
}
