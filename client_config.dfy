/** The settings `create_host` reads from the flattened configuration dict
    before it talks to Foreman: the client options, with their defaults, and
    the four entries the client constructor needs. */
module ClientConfig {
  import opened Common
  import opened PyValues
  import opened PyInt

  const DefaultTimeout: int := 60
  const DefaultTimeoutPost: int := 600
  const DefaultTimeoutDelete: int := 600
  const DefaultUseCache: bool := true
  const DefaultVerify: bool := false

  /** The options handed to the Foreman client. A configured `use_cache` or
      `verify` is passed on as the configuration string itself. */
  datatype Options = Options(
    timeout: int,
    timeoutPost: int,
    timeoutDelete: int,
    useCache: Value,
    verify: Value)

  /** The client handle `Foreman(url=..., auth=(...), api_version=..., ...)`. */
  datatype Connection = Connection(
    url: string,
    username: string,
    password: string,
    apiVersion: string,
    options: Options)

  /** `int(cfg[key]) if key in cfg else default`. */
  function IntSetting(cfg: map<string, string>, key: string, default: int): (r: Result<int, Exception>)
    ensures key !in cfg ==> r == Ok(default)
    ensures key in cfg ==> (r.Ok? <==> ParseInt(cfg[key]).Some?)
    ensures key in cfg && r.Ok? ==> r.value == ParseInt(cfg[key]).value
    ensures r.Err? ==> r.error == ValueError(cfg[key])
  {
    if key in cfg then
      match ParseInt(cfg[key])
      case Some(n) => Ok(n)
      case None => Err(ValueError(cfg[key]))
    else Ok(default)
  }

  /** `cfg[key] if key in cfg else default`, for the two flags. */
  function FlagSetting(cfg: map<string, string>, key: string, default: bool): Value
  {
    if key in cfg then Str(cfg[key]) else Bool(default)
  }

  /** The option block at the start of `create_host`; the three timeouts are
      converted in order, so the first one that is no integer raises. */
  function ClientOptions(cfg: map<string, string>): Result<Options, Exception>
  {
    var timeout :- IntSetting(cfg, "timeout", DefaultTimeout);
    var timeoutPost :- IntSetting(cfg, "timeout_post", DefaultTimeoutPost);
    var timeoutDelete :- IntSetting(cfg, "timeout_delete", DefaultTimeoutDelete);
    Ok(Options(timeout, timeoutPost, timeoutDelete,
               FlagSetting(cfg, "use_cache", DefaultUseCache),
               FlagSetting(cfg, "verify", DefaultVerify)))
  }

  /** A setting that is absent or reads as an integer. */
  predicate IntAccepted(cfg: map<string, string>, key: string)
  {
    key !in cfg || ParseInt(cfg[key]).Some?
  }

  /** With none of the five options configured, the client gets 60, 600,
      600, caching on and certificate checks off. */
  lemma OptionDefaults(cfg: map<string, string>)
    requires "timeout" !in cfg && "timeout_post" !in cfg && "timeout_delete" !in cfg
    requires "use_cache" !in cfg && "verify" !in cfg
    ensures ClientOptions(cfg) == Ok(Options(60, 600, 600, Bool(true), Bool(false)))
  {
  }

  /** The options are built exactly when every configured timeout is an
      integer; then each option is its configured value or its default.
      Otherwise the first timeout, in the order `timeout`, `timeout_post`,
      `timeout_delete`, that is no integer raises. */
  lemma OptionsOutcome(cfg: map<string, string>)
    ensures ClientOptions(cfg).Ok? <==>
      IntAccepted(cfg, "timeout") && IntAccepted(cfg, "timeout_post") && IntAccepted(cfg, "timeout_delete")
    ensures ClientOptions(cfg).Ok? ==>
      var o := ClientOptions(cfg).value;
      && o.timeout == (if "timeout" in cfg then ParseInt(cfg["timeout"]).value else 60)
      && o.timeoutPost == (if "timeout_post" in cfg then ParseInt(cfg["timeout_post"]).value else 600)
      && o.timeoutDelete == (if "timeout_delete" in cfg then ParseInt(cfg["timeout_delete"]).value else 600)
      && o.useCache == (if "use_cache" in cfg then Str(cfg["use_cache"]) else Bool(true))
      && o.verify == (if "verify" in cfg then Str(cfg["verify"]) else Bool(false))
    ensures !IntAccepted(cfg, "timeout") ==>
      ClientOptions(cfg) == Err(ValueError(cfg["timeout"]))
    ensures IntAccepted(cfg, "timeout") && !IntAccepted(cfg, "timeout_post") ==>
      ClientOptions(cfg) == Err(ValueError(cfg["timeout_post"]))
    ensures IntAccepted(cfg, "timeout") && IntAccepted(cfg, "timeout_post") && !IntAccepted(cfg, "timeout_delete") ==>
      ClientOptions(cfg) == Err(ValueError(cfg["timeout_delete"]))
  {
    if !IntAccepted(cfg, "timeout") {
      assert ClientOptions(cfg).error == ValueError(cfg["timeout"]);
    } else if !IntAccepted(cfg, "timeout_post") {
      assert ClientOptions(cfg).error == ValueError(cfg["timeout_post"]);
    } else if !IntAccepted(cfg, "timeout_delete") {
      assert ClientOptions(cfg).error == ValueError(cfg["timeout_delete"]);
    }
  }

  /** Timeouts written to the configuration as `str(n)` reach the client as
      `n`. */
  lemma ConfiguredTimeouts(cfg: map<string, string>, timeout: int, timeoutPost: int, timeoutDelete: int)
    requires "timeout" in cfg && cfg["timeout"] == Decimal(timeout)
    requires "timeout_post" in cfg && cfg["timeout_post"] == Decimal(timeoutPost)
    requires "timeout_delete" in cfg && cfg["timeout_delete"] == Decimal(timeoutDelete)
    ensures ClientOptions(cfg).Ok?
    ensures ClientOptions(cfg).value.timeout == timeout
    ensures ClientOptions(cfg).value.timeoutPost == timeoutPost
    ensures ClientOptions(cfg).value.timeoutDelete == timeoutDelete
  {
    ParseDecimal(timeout);
    ParseDecimal(timeoutPost);
    ParseDecimal(timeoutDelete);
  }

  /** `Foreman(url=cfg['server'], auth=(cfg['username'], cfg['password']),
      api_version=cfg['api_version'], ...)`: the options first, then the
      four entries in argument order, each a KeyError when missing. */
  function Connect(cfg: map<string, string>): (r: Result<Connection, Exception>)
    ensures r.Ok? ==>
      && ClientOptions(cfg) == Ok(r.value.options)
      && "server" in cfg && r.value.url == cfg["server"]
      && "username" in cfg && r.value.username == cfg["username"]
      && "password" in cfg && r.value.password == cfg["password"]
      && "api_version" in cfg && r.value.apiVersion == cfg["api_version"]
    ensures r.Err? <==>
      ClientOptions(cfg).Err? || !("server" in cfg && "username" in cfg && "password" in cfg && "api_version" in cfg)
  {
    var options :- ClientOptions(cfg);
    var url :- Get(cfg, "server");
    var username :- Get(cfg, "username");
    var password :- Get(cfg, "password");
    var apiVersion :- Get(cfg, "api_version");
    Ok(Connection(url, username, password, apiVersion, options))
  }
}
