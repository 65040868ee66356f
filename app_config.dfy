/**
 * The application configuration (src/common/core/app/_app-config.ts): the mode, whether
 * the application runs in production, and the validated server and directory settings,
 * read from `process.env` after the env files are loaded.
 *
 * `DefaultAppConfig` is not part of this model, so its values are the parameter
 * `defaults`. `Number(...)` is the parameter `toNumber` and `Path.resolve(process.cwd(), ·)`
 * the parameter `resolve`.
 */
module AppConfiguration {
  import opened Wrappers
  import opened JsValues
  import opened AppEnvironment

  /** `DefaultAppConfig`: the defaults for `server.host`, `server.port` and `directory.logs`. */
  datatype Defaults = Defaults(host: string, port: JsNumber, logs: string)

  /** `ServerConfig` */
  datatype ServerConfig = ServerConfig(host: string, port: real)

  /** `DirectoryConfig` */
  datatype DirectoryConfig = DirectoryConfig(logs: string)

  /** `process.env[key] || fallback`: an unset or empty variable gives the fallback. */
  function EnvOr(vars: Env, key: string, fallback: string): (v: string)
    ensures key in vars && vars[key] != "" ==> v == vars[key]
    ensures key !in vars || vars[key] == "" ==> v == fallback
  {
    if key in vars && vars[key] != "" then vars[key] else fallback
  }

  /** `_isProduction`: `(process.env['NODE_ENV'] || 'development') === 'production'` */
  function IsProduction(vars: Env): bool {
    EnvOr(vars, "NODE_ENV", "development") == "production"
  }

  /** Production exactly when `NODE_ENV` is `production`. */
  lemma ProductionIff(vars: Env)
    ensures IsProduction(vars) <==> "NODE_ENV" in vars && vars["NODE_ENV"] == "production"
  {
  }

  /** `a < b` on a number and a finite bound. */
  predicate Below(a: JsNumber, b: real) {
    a.NegInfinity? || (a.Finite? && a.value < b)
  }

  /** `a > b` on a number and a finite bound. */
  predicate Above(a: JsNumber, b: real) {
    a.PosInfinity? || (a.Finite? && a.value > b)
  }

  /** `Number.isNaN(port) || port < 0 || port > 65535` */
  predicate BadPort(port: JsNumber) {
    port.NaN? || Below(port, 0.0) || Above(port, 65535.0)
  }

  /** A port passes exactly when it is a finite number from 0 to 65535, whole or not. */
  lemma BadPortIff(port: JsNumber)
    ensures !BadPort(port) <==> port.Finite? && 0.0 <= port.value <= 65535.0
  {
  }

  /** `Number(process.env['PORT'] || DefaultAppConfig.server.port)` */
  function PortOf(vars: Env, defaults: Defaults, toNumber: string -> JsNumber): (n: JsNumber)
    ensures "PORT" in vars && vars["PORT"] != "" ==> n == toNumber(vars["PORT"])
    ensures "PORT" !in vars || vars["PORT"] == "" ==> n == defaults.port
  {
    if "PORT" in vars && vars["PORT"] != "" then toNumber(vars["PORT"]) else defaults.port
  }

  /** `_serverConfig` */
  function ServerConfigOf(vars: Env, defaults: Defaults, toNumber: string -> JsNumber): (r: Result<ServerConfig>)
    ensures var host := EnvOr(vars, "HOST", defaults.host);
      var port := PortOf(vars, defaults, toNumber);
      && (r.Ok? <==> host != "" && port.Finite? && 0.0 <= port.value <= 65535.0)
      && (r.Ok? ==> r.value == ServerConfig(host, port.value))
      && (r.Err? ==> r.error == ConfigurationError)
  {
    var host := EnvOr(vars, "HOST", defaults.host);
    var port := PortOf(vars, defaults, toNumber);
    if host == "" then Err(ConfigurationError)
    else if BadPort(port) then Err(ConfigurationError)
    else Ok(ServerConfig(host, port.value))
  }

  /** A variable set to `''` counts as unset, for the host as for the port. */
  lemma ServerEmptyIsUnset(vars: Env, key: string, defaults: Defaults, toNumber: string -> JsNumber)
    requires key == "HOST" || key == "PORT"
    ensures ServerConfigOf(vars[key := ""], defaults, toNumber) == ServerConfigOf(vars - {key}, defaults, toNumber)
  {
    var set1 := vars[key := ""];
    var unset := vars - {key};
    assert EnvOr(set1, "HOST", defaults.host) == EnvOr(unset, "HOST", defaults.host);
    assert PortOf(set1, defaults, toNumber) == PortOf(unset, defaults, toNumber);
  }

  /** `_directoryConfig` */
  function DirectoryConfigOf(vars: Env, defaults: Defaults, resolve: string -> string): (r: Result<DirectoryConfig>)
    ensures var logs := EnvOr(vars, "LOGS_DIR", defaults.logs);
      && (r.Ok? <==> logs != "")
      && (r.Ok? ==> r.value == DirectoryConfig(resolve(logs)))
      && (r.Err? ==> r.error == ConfigurationError)
  {
    var logs := EnvOr(vars, "LOGS_DIR", defaults.logs);
    if logs == "" then Err(ConfigurationError) else Ok(DirectoryConfig(resolve(logs)))
  }

  /** `AppConfig`; its fields are read-only. */
  class AppConfig {
    const mode: Option<string>
    const isProduction: bool
    const server: ServerConfig
    const directory: DirectoryConfig

    constructor Of(mode: Option<string>, isProduction: bool, server: ServerConfig, directory: DirectoryConfig)
      ensures this.mode == mode && this.isProduction == isProduction
      ensures this.server == server && this.directory == directory
    {
      this.mode := mode;
      this.isProduction := isProduction;
      this.server := server;
      this.directory := directory;
    }

    /**
     * `new AppConfig()`: reads the mode, loads the env files into `process.env`, then reads
     * the three settings; the first step that throws means no configuration is made, but
     * what was loaded stays in `process.env`.
     */
    static method Create(argv: seq<string>, process: ProcessEnv, files: Files, defaults: Defaults,
                         toNumber: string -> JsNumber, resolve: string -> string)
      returns (r: Result<AppConfig>)
      modifies process`vars
      ensures var (loaded, env) := Loaded(old(process.vars), ModeOf(argv), files);
        && process.vars == env
        && (r.Ok? <==> loaded.Done? && ServerConfigOf(env, defaults, toNumber).Ok?
                       && DirectoryConfigOf(env, defaults, resolve).Ok?)
        && (r.Err? ==> r.error == ConfigurationError)
        && (r.Ok? ==> && fresh(r.value)
                      && r.value.mode == ModeOf(argv)
                      && r.value.isProduction == IsProduction(env)
                      && r.value.server == ServerConfigOf(env, defaults, toNumber).value
                      && r.value.directory == DirectoryConfigOf(env, defaults, resolve).value)
    {
      var mode := ModeOf(argv);
      var loaded := process.LoadEnvironment(mode, files);
      if loaded.Fail? {
        return Err(loaded.error);
      }
      var isProduction := IsProduction(process.vars);
      var server := ServerConfigOf(process.vars, defaults, toNumber);
      if server.Err? {
        return Err(server.error);
      }
      var directory := DirectoryConfigOf(process.vars, defaults, resolve);
      if directory.Err? {
        return Err(directory.error);
      }
      var config := new AppConfig.Of(mode, isProduction, server.value, directory.value);
      r := Ok(config);
    }
  }
}
