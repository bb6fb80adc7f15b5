/**
  The process environment and the choice of the dotenv file loaded at
  startup: `.env.<FLASK_ENV>` when that file exists, the default `.env`
  otherwise.
 */
module Environment {

  /** The process environment as `os.environ` sees it. */
  type Environ = map<string, string>

  /** `os.environ.get(key, default)`. */
  function Get(env: Environ, key: string, default: string): (v: string)
    ensures key in env ==> v == env[key]
    ensures key !in env ==> v == default
  {
    if key in env then env[key] else default
  }

  const DefaultEnvName: string := "development"

  /** The deployment environment name: `FLASK_ENV`, "development" when unset. */
  function EnvName(env: Environ): string {
    Get(env, "FLASK_ENV", DefaultEnvName)
  }

  /** The environment-specific dotenv file name for an environment name. */
  function EnvFilePath(name: string): string {
    ".env." + name
  }

  /** Which dotenv file is loaded: the environment-specific file, or the
      default `.env` that `load_dotenv()` looks for when called without a
      path. */
  datatype DotenvChoice = EnvSpecificFile(path: string) | DefaultDotenvFile

  /** The choice made before anything else runs. `existing` is the set of
      file names that exist in the working directory. */
  function SelectDotenv(env: Environ, existing: set<string>): (c: DotenvChoice)
    ensures c.EnvSpecificFile? <==> EnvFilePath(EnvName(env)) in existing
    ensures c.EnvSpecificFile? ==> c.path == EnvFilePath(EnvName(env))
  {
    var path := EnvFilePath(EnvName(env));
    if path in existing then EnvSpecificFile(path) else DefaultDotenvFile
  }

  /** The choice depends on the existence of that one file only. */
  lemma SelectDotenvLooksAtOneFile(env: Environ, fs1: set<string>, fs2: set<string>)
    requires EnvFilePath(EnvName(env)) in fs1 <==> EnvFilePath(EnvName(env)) in fs2
    ensures SelectDotenv(env, fs1) == SelectDotenv(env, fs2)
  {
  }

  /** With `FLASK_ENV` unset, `.env.development` is the file looked for. */
  lemma UnsetEnvLooksForDevelopmentFile(env: Environ, existing: set<string>)
    requires "FLASK_ENV" !in env
    ensures SelectDotenv(env, existing)
         == if ".env.development" in existing then EnvSpecificFile(".env.development")
            else DefaultDotenvFile
  {
    assert EnvFilePath(EnvName(env)) == ".env.development";
  }

  /** The environment after `load_dotenv(path)` with its default
      `override=False`: a variable the file sets is added only when the
      environment does not already have it. `fileVars` are the variables the
      chosen file assigns (reading and parsing the file is not modelled). */
  function LoadDotenv(env: Environ, fileVars: Environ): (r: Environ)
    ensures r.Keys == env.Keys + fileVars.Keys
    ensures forall k :: k in env ==> r[k] == env[k]
    ensures forall k :: k in fileVars && k !in env ==> r[k] == fileVars[k]
  {
    fileVars + env
  }

  /** Loading the same file a second time changes nothing. */
  lemma LoadDotenvIdempotent(env: Environ, fileVars: Environ)
    ensures LoadDotenv(LoadDotenv(env, fileVars), fileVars) == LoadDotenv(env, fileVars)
  {
  }

  /** A variable set when the process starts keeps that value after loading. */
  lemma LoadedKeepsStartValue(env: Environ, fileVars: Environ, key: string)
    requires key in env
    ensures Get(LoadDotenv(env, fileVars), key, "") == env[key]
  {
  }
}
