/**
  The order of startup: the dotenv file is chosen from the environment
  the process was started with; the application is assembled and, when
  run as the main program, the database is initialised and the server
  started with settings read from the environment after the dotenv file
  was loaded.
 */
module Entrypoint {
  import opened Environment
  import opened AppSettings
  import opened AutoInit

  /** Everything the startup sequence decides. */
  datatype Startup = Startup(
    dotenv: DotenvChoice,
    config: AppConfig,
    init: InitRun,
    serve: ServeSettings)

  /** The startup of `main.py` run as a program. `processEnv` is the
      environment the process starts with, `existing` the files in the
      working directory, and `fileVars(c)` the variables the dotenv file
      chosen as `c` assigns. The chosen file is loaded without overriding
      variables already set; the configuration and the server settings are
      read from the environment after that. */
  function RunMain(processEnv: Environ, existing: set<string>, fileVars: DotenvChoice -> Environ,
                   tables: seq<string>, processAll: seq<string> -> Ingestion): (s: Startup)
    ensures s.dotenv == SelectDotenv(processEnv, existing)
    ensures s.config == AssembleConfig(LoadDotenv(processEnv, fileVars(s.dotenv)))
    ensures s.serve == ServeSettingsFor(LoadDotenv(processEnv, fileVars(s.dotenv)))
    ensures s.init == AutoInitDatabase(tables, processAll)
  {
    var choice := SelectDotenv(processEnv, existing);
    var loaded := LoadDotenv(processEnv, fileVars(choice));
    Startup(choice, AssembleConfig(loaded), AutoInitDatabase(tables, processAll), ServeSettingsFor(loaded))
  }

  /** `FLASK_ENV=production` in the starting environment turns debug off:
      no dotenv file can override it. */
  lemma ProductionAtStartMeansNoDebug(processEnv: Environ, existing: set<string>,
                                      fileVars: DotenvChoice -> Environ,
                                      tables: seq<string>, processAll: seq<string> -> Ingestion)
    requires "FLASK_ENV" in processEnv && processEnv["FLASK_ENV"] == "production"
    ensures !RunMain(processEnv, existing, fileVars, tables, processAll).serve.debug
  {
    LoadedKeepsStartValue(processEnv, fileVars(SelectDotenv(processEnv, existing)), "FLASK_ENV");
  }

  /** With `FLASK_ENV` unset at start, `.env.development` is the file looked
      for, yet the debug decision follows whatever `FLASK_ENV` the loaded
      file sets: a default `.env` holding `FLASK_ENV=production` turns debug
      off although the development file was the one looked for. */
  lemma DotenvDecidesDebugWhenUnset(processEnv: Environ, existing: set<string>,
                                    fileVars: DotenvChoice -> Environ,
                                    tables: seq<string>, processAll: seq<string> -> Ingestion)
    requires "FLASK_ENV" !in processEnv
    ensures var s := RunMain(processEnv, existing, fileVars, tables, processAll);
      && (s.dotenv.EnvSpecificFile? ==> s.dotenv.path == ".env.development")
      && (!s.serve.debug <==> Get(fileVars(s.dotenv), "FLASK_ENV", DefaultEnvName) == "production")
  {
    UnsetEnvLooksForDevelopmentFile(processEnv, existing);
  }

  /** For an ingestion that returns or raises an `Exception`, the server is
      started with the same configuration and settings whatever the
      ingestion did. */
  lemma ServingIndependentOfIngestion(processEnv: Environ, existing: set<string>,
                                      fileVars: DotenvChoice -> Environ, tables: seq<string>,
                                      p1: seq<string> -> Ingestion, p2: seq<string> -> Ingestion)
    ensures RunMain(processEnv, existing, fileVars, tables, p1).serve
         == RunMain(processEnv, existing, fileVars, tables, p2).serve
    ensures RunMain(processEnv, existing, fileVars, tables, p1).config
         == RunMain(processEnv, existing, fileVars, tables, p2).config
  {
  }

  /** Nothing configured, no environment-specific file, and a default
      `.env` that sets nothing: the default `.env` is tried, every origin
      is allowed, and the server binds 0.0.0.0:5000 with debug on. */
  lemma BareStartup(fileVars: DotenvChoice -> Environ, tables: seq<string>,
                    processAll: seq<string> -> Ingestion)
    requires fileVars(DefaultDotenvFile) == map[]
    ensures var s := RunMain(map[], {}, fileVars, tables, processAll);
      && s.dotenv == DefaultDotenvFile
      && s.config.corsAllowed == Cors.Wildcard
      && s.serve == ServeSettings(true, "0.0.0.0", PortNumber(5000))
  {
    assert LoadDotenv(map[], map[]) == map[];
    ConfigDefaults(map[]);
  }
}
