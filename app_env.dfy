/**
 * The process environment as the application reads it (src/common/core/app/_app-env.ts):
 * the `--mode` command-line argument, the env files dotenv loads into `process.env`, and
 * the typed lookups `getString` and `getNumber`.
 *
 * `process.argv` is a sequence of strings and `process.env` a map. An env file is named
 * relative to the working directory; `files` gives what dotenv reads from it, `None` when
 * `DotENV.config` reports an error. `Number(...)` is the parameter `toNumber`.
 */
module AppEnvironment {
  import opened Wrappers
  import opened JsValues

  type Env = map<string, string>

  type Files = string -> Option<Env>

  const ModeFlag := "--mode"

  /** The file loaded first in a mode, `.env.${mode}`. */
  function ModeFile(mode: string): (f: string)
    ensures f == ".env." + mode
  {
    ".env." + mode
  }

  /** The file `DotENV.config()` loads without a path. */
  const DefaultFile := ".env"

  /** `argv.findIndex((arg) => arg === target)` */
  function FindIndex(argv: seq<string>, target: string): (i: int)
    ensures -1 <= i < |argv|
    ensures i == -1 <==> target !in argv
    ensures i >= 0 ==> argv[i] == target && target !in argv[..i]
  {
    if argv == [] then -1
    else if argv[0] == target then 0
    else
      var j := FindIndex(argv[1..], target);
      if j == -1 then -1
      else
        assert argv[..j + 1] == [argv[0]] + argv[1..][..j];
        j + 1
  }

  /** `modeParamIndex >= 0 ? process.argv[modeParamIndex + 1] : undefined` */
  function ModeOf(argv: seq<string>): Option<string> {
    var i := FindIndex(argv, ModeFlag);
    if i >= 0 && i + 1 < |argv| then Some(argv[i + 1]) else None
  }

  /** The mode is the argument after the first `--mode`. */
  lemma ModeAfterFirstFlag(before: seq<string>, mode: string, after: seq<string>)
    requires ModeFlag !in before
    ensures ModeOf(before + [ModeFlag, mode] + after) == Some(mode)
  {
    var argv := before + [ModeFlag, mode] + after;
    assert argv[|before|] == ModeFlag;
    assert argv[..|before|] == before;
  }

  /** Without `--mode`, or with `--mode` as the last argument, there is no mode. */
  lemma NoModeWithoutValue(before: seq<string>)
    requires ModeFlag !in before
    ensures ModeOf(before) == None
    ensures ModeOf(before + [ModeFlag]) == None
  {
    var argv := before + [ModeFlag];
    assert argv[..|before|] == before;
  }

  /** `if (this.mode)`: an empty mode loads no mode file. */
  predicate HasMode(mode: Option<string>) {
    mode.Some? && mode.value != ""
  }

  /** What `DotENV.config` leaves in `process.env`: a variable already set is not overridden. */
  function Merged(vars: Env, file: Env): (r: Env)
    ensures r.Keys == vars.Keys + file.Keys
    ensures forall k :: k in vars ==> r[k] == vars[k]
    ensures forall k :: k in file && k !in vars ==> r[k] == file[k]
  {
    map k | k in vars.Keys + file.Keys :: if k in vars then vars[k] else file[k]
  }

  /**
   * `_loadEnvironment`: with a mode, its file first, then the default file; the first file
   * dotenv cannot load ends it with a `ConfigurationError`. The environment is what the
   * loads before it left behind.
   */
  function Loaded(vars: Env, mode: Option<string>, files: Files): (Outcome, Env) {
    var first := if HasMode(mode) then files(ModeFile(mode.value)) else Some(map[]);
    if first.None? then (Fail(ConfigurationError), vars)
    else
      var afterMode := Merged(vars, first.value);
      var second := files(DefaultFile);
      if second.None? then (Fail(ConfigurationError), afterMode)
      else (Done, Merged(afterMode, second.value))
  }

  /** Loading fails exactly when the mode file or the default file cannot be loaded. */
  lemma LoadedFails(vars: Env, mode: Option<string>, files: Files)
    ensures var (o, _) := Loaded(vars, mode, files);
      && (o.Fail? <==> (HasMode(mode) && files(ModeFile(mode.value)).None?) || files(DefaultFile).None?)
      && (o.Fail? ==> o.error == ConfigurationError)
  {
  }

  /**
   * After a successful load every variable comes from the first of: the environment the
   * process started with, the mode file, the default file. Nothing else is defined.
   */
  lemma LoadedPrecedence(vars: Env, mode: Option<string>, files: Files, key: string)
    requires Loaded(vars, mode, files).0.Done?
    ensures var env := Loaded(vars, mode, files).1;
      var modeVars := if HasMode(mode) then files(ModeFile(mode.value)).value else map[];
      var defaults := files(DefaultFile).value;
      && (key in env <==> key in vars || key in modeVars || key in defaults)
      && (key in vars ==> env[key] == vars[key])
      && (key !in vars && key in modeVars ==> env[key] == modeVars[key])
      && (key !in vars && key !in modeVars && key in defaults ==> env[key] == defaults[key])
  {
    var modeVars := if HasMode(mode) then files(ModeFile(mode.value)).value else map[];
    var afterMode := Merged(vars, modeVars);
    assert Loaded(vars, mode, files).1 == Merged(afterMode, files(DefaultFile).value);
  }

  /** `process.env`, which dotenv fills in place. */
  class ProcessEnv {
    var vars: Env

    constructor(vars: Env)
      ensures this.vars == vars
    {
      this.vars := vars;
    }

    /** `DotENV.config({ path })`: whether it reported no error. */
    method Config(path: string, files: Files) returns (ok: bool)
      modifies this`vars
      ensures ok == files(path).Some?
      ensures vars == if ok then Merged(old(vars), files(path).value) else old(vars)
    {
      var file := files(path);
      if file.None? {
        return false;
      }
      vars := Merged(vars, file.value);
      ok := true;
    }

    /** `_loadEnvironment` of `AppEnv`, and `_loadEnv` of `AppConfig`, which is the same code. */
    method LoadEnvironment(mode: Option<string>, files: Files) returns (outcome: Outcome)
      modifies this`vars
      ensures (outcome, vars) == Loaded(old(vars), mode, files)
    {
      if HasMode(mode) {
        var ok := Config(ModeFile(mode.value), files);
        if !ok {
          return Fail(ConfigurationError);
        }
      } else {
        assert Merged(vars, map[]) == vars;
      }
      var ok := Config(DefaultFile, files);
      if !ok {
        return Fail(ConfigurationError);
      }
      outcome := Done;
    }
  }

  /** `AppEnvStatic` */
  class AppEnv {
    const mode: Option<string>
    const process: ProcessEnv

    /**
     * The first half of the constructor, which reads the mode; the `_loadEnvironment` call
     * it ends with is `LoadEnvironment`.
     */
    constructor(argv: seq<string>, process: ProcessEnv)
      ensures mode == ModeOf(argv) && this.process == process
    {
      mode := ModeOf(argv);
      this.process := process;
    }

    /** The constructor's `this._loadEnvironment()`. */
    method LoadEnvironment(files: Files) returns (outcome: Outcome)
      modifies process`vars
      ensures (outcome, process.vars) == Loaded(old(process.vars), mode, files)
    {
      outcome := process.LoadEnvironment(mode, files);
    }

    /** `getString(key, defaultValue?)`: a set variable is returned as it is, even `''`. */
    function GetString(key: string, defaultValue: Option<string>): (r: Result<string>)
      reads process
      ensures key in process.vars ==> r == Ok(process.vars[key])
      ensures key !in process.vars && defaultValue.Some? ==> r == Ok(defaultValue.value)
      ensures key !in process.vars && defaultValue.None? ==> r == Err(ConfigurationError)
    {
      if key !in process.vars then
        if defaultValue.Some? then Ok(defaultValue.value) else Err(ConfigurationError)
      else Ok(process.vars[key])
    }

    /**
     * `getNumber(key, defaultValue?)`: the same fallbacks, and a set variable that `Number`
     * makes `NaN` is a `ConfigurationError`. A default is returned unchecked.
     */
    function GetNumber(key: string, defaultValue: Option<JsNumber>, toNumber: string -> JsNumber): (r: Result<JsNumber>)
      reads process
      ensures key in process.vars ==> (r.Ok? <==> toNumber(process.vars[key]) != NaN)
      ensures key in process.vars && r.Ok? ==> r.value == toNumber(process.vars[key])
      ensures key in process.vars && r.Err? ==> r.error == ConfigurationError
      ensures key !in process.vars && defaultValue.Some? ==> r == Ok(defaultValue.value)
      ensures key !in process.vars && defaultValue.None? ==> r == Err(ConfigurationError)
    {
      if key !in process.vars then
        if defaultValue.Some? then Ok(defaultValue.value) else Err(ConfigurationError)
      else
        var number := toNumber(process.vars[key]);
        if number == NaN then Err(ConfigurationError) else Ok(number)
    }
  }
}
