/**
 * Configuration read from the process environment (app.py, `get_env`,
 * `get_connection` and the message text of `insert_message`).
 */
module Config {
  import opened Wrappers

  /** The process environment: variable name to value. */
  type Environment = map<string, string>

  /** The RuntimeError `get_env` raises for a variable that is unset and has no default. */
  datatype ConfigError = MissingVariable(name: string) {
    function Message(): string {
      "Environment variable '" + name + "' is required"
    }
  }

  /** `get_env(name, default)`: the variable if set, else the default, else an error naming the variable. */
  function GetEnv(env: Environment, name: string, default: Option<string>): (r: Result<string, ConfigError>)
    ensures r.Ok? <==> name in env || default.Some?
    ensures r.Ok? && name in env ==> r.value == env[name]
    ensures r.Ok? && name !in env ==> r.value == default.value
    ensures r.Err? ==> r.error == MissingVariable(name)
  {
    if name in env then Ok(env[name])
    else if default.Some? then Ok(default.value)
    else Err(MissingVariable(name))
  }

  /** `word` stands in `text` starting at position `i`. */
  predicate OccursAt(text: string, word: string, i: int) {
    0 <= i <= |text| - |word| && text[i..i + |word|] == word
  }

  /** The error message quotes the missing variable's name. */
  lemma MissingMessageNamesVariable(name: string)
    ensures exists i :: OccursAt(MissingVariable(name).Message(), name, i)
  {
    var m := MissingVariable(name).Message();
    var i := |"Environment variable '"|;
    assert m[i..i + |name|] == name;
    assert OccursAt(m, name, i);
  }

  /** The keyword arguments `get_connection` hands to the database driver. */
  datatype ConnectionParams = ConnectionParams(
    host: string, port: string, dbname: string, user: string, password: string, sslmode: string)

  const DefaultPort := "5432"
  const DefaultSslMode := "require"

  /** The variables without a default, in the order `get_connection` reads them. */
  const RequiredVariables: seq<string> := ["POSTGRES_HOST", "POSTGRES_DB", "POSTGRES_USER", "POSTGRES_PASSWORD"]

  /** Value of an optional variable, falling back to `default` (`os.environ.get(name, default)`). */
  function Lookup(env: Environment, name: string, default: string): (r: string)
    ensures name in env ==> r == env[name]
    ensures name !in env ==> r == default
  {
    if name in env then env[name] else default
  }

  /**
   * The connection parameters of `get_connection`; Python evaluates the keyword
   * arguments left to right, so the first missing required variable is reported.
   */
  function ResolveConnection(env: Environment): (r: Result<ConnectionParams, ConfigError>)
  {
    var host :- GetEnv(env, "POSTGRES_HOST", None);
    var port :- GetEnv(env, "POSTGRES_PORT", Some(DefaultPort));
    var dbname :- GetEnv(env, "POSTGRES_DB", None);
    var user :- GetEnv(env, "POSTGRES_USER", None);
    var password :- GetEnv(env, "POSTGRES_PASSWORD", None);
    Ok(ConnectionParams(host, port, dbname, user, password, Lookup(env, "POSTGRES_SSLMODE", DefaultSslMode)))
  }

  /** Resolution succeeds exactly when every required variable is set, and then reads each from the environment. */
  lemma ResolveConnectionSucceeds(env: Environment)
    ensures ResolveConnection(env).Ok? <==> forall k :: 0 <= k < |RequiredVariables| ==> RequiredVariables[k] in env
    ensures ResolveConnection(env).Ok? ==> ResolveConnection(env).value == ConnectionParams(
      env["POSTGRES_HOST"], Lookup(env, "POSTGRES_PORT", DefaultPort), env["POSTGRES_DB"],
      env["POSTGRES_USER"], env["POSTGRES_PASSWORD"], Lookup(env, "POSTGRES_SSLMODE", DefaultSslMode))
  {
    assert RequiredVariables == ["POSTGRES_HOST", "POSTGRES_DB", "POSTGRES_USER", "POSTGRES_PASSWORD"];
    if forall k :: 0 <= k < |RequiredVariables| ==> RequiredVariables[k] in env {
      assert RequiredVariables[0] in env && RequiredVariables[1] in env;
      assert RequiredVariables[2] in env && RequiredVariables[3] in env;
    } else {
      var k :| 0 <= k < |RequiredVariables| && RequiredVariables[k] !in env;
      assert k == 0 || k == 1 || k == 2 || k == 3;
    }
  }

  /** The `k`-th required variable is unset and all before it are set. */
  ghost predicate IsFirstMissing(env: Environment, k: nat)
    requires k < |RequiredVariables|
  {
    RequiredVariables[k] !in env && forall j :: 0 <= j < k ==> RequiredVariables[j] in env
  }

  /** A failed resolution names the first required variable (in reading order) that is unset. */
  lemma ResolveConnectionNamesFirstMissing(env: Environment)
    requires ResolveConnection(env).Err?
    ensures exists k :: (0 <= k < |RequiredVariables| && IsFirstMissing(env, k) &&
                         ResolveConnection(env).error == MissingVariable(RequiredVariables[k]))
  {
    var k := if "POSTGRES_HOST" !in env then 0
      else if "POSTGRES_DB" !in env then 1
      else if "POSTGRES_USER" !in env then 2
      else 3;
    assert IsFirstMissing(env, k);
  }

  const MessageVariable := "NEONSECURITYTASK_MESSAGE"
  const FallbackMessage := "Fallback message"

  /** The text `insert_message` stores: the configured message, or the fallback when unset. */
  function MessageText(env: Environment): (r: string)
    ensures MessageVariable in env ==> r == env[MessageVariable]
    ensures MessageVariable !in env ==> r == FallbackMessage
  {
    Lookup(env, MessageVariable, FallbackMessage)
  }
}
