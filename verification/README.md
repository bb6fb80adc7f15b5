# orderflow entry point — a Dafny model

This project models the bootstrap logic in orderflow's `main.py`, the program
that starts the order-flow web application. It covers:

- **Dotenv selection.** The environment name comes from `FLASK_ENV`, default
  `development`. The file `.env.<name>` is loaded when it exists; otherwise the
  default `.env` is loaded.
- **The access-log filter.** Web-server log lines that mention the broker's
  auth callback path `/fyers/callback` are dropped.
- **The application settings.** These are the secret key, the Socket.IO async
  mode, and the CORS allow-list parsed from `CORS_ORIGINS`:
  - a value that strips to `*` allows every origin;
  - any other value is split on commas, each piece is stripped, and empty
    pieces are dropped.
- **The best-effort database initialisation.** On an empty symbol database,
  the three NSE symbol files are ingested. A failure raised as an
  `Exception` is reported as a non-fatal outcome.
- **The development server's settings.** Debug is on unless `FLASK_ENV` is
  exactly `production`. The host defaults to `0.0.0.0` and the port to `5000`.

Modules:

- `Text` models Python's `str.strip()`, `str.split(',')` and substring test
  `in`:
  - strip removes exactly the characters for which Python's `str.isspace()` is
    true;
  - split is proved to be the inverse of joining with the separator.
- `Cors` models the allow-list, with the list comprehension written as the
  appends it performs.
- `AccessLog` models the logging filter.
- `Environment` models `os.environ.get` as a lookup in a map, the dotenv
  choice, and the effect of `load_dotenv` with its default `override=False`:
  variables already set keep their values.
- `AppSettings` models the configuration read by the application assembler
  and the arguments of `socketio.run`.
- `AutoInit` models `auto_init_database`. The symbol master is a
  collaborator: its table list is an input, and `process_all` is a function
  from the URL list to success or a failure reason.
- `Entrypoint` models the startup order when `main.py` runs as a program.

`FLASK_ENV` is read twice:

- line 5 reads it from the environment the process started with, to choose
  the dotenv file;
- line 82 reads it again after that file was loaded.

The dotenv file can therefore change the debug decision when `FLASK_ENV` was
unset at start, without having influenced which file was loaded. A
`FLASK_ENV` set at start cannot be changed by the file.
`Entrypoint.RunMain` takes the starting environment and the variables each
candidate file assigns. It derives the environment after loading from them.

## Model

| member | source | states |
|---|---|---|
| Text.Strip | main.py:64 | The stripped string has no whitespace at either end and is no longer than the input. It is empty exactly when the input is all whitespace. |
| Text.StripIsInfix | main.py:64 | The strip result is the input with a leading and a trailing whitespace run removed. |
| Text.StripOfPadded | main.py:64 | Padding a string that has no whitespace at its ends with any whitespace on both sides, then stripping, gives back that string. |
| Text.StripIdempotent | main.py:64 | Stripping twice is the same as stripping once. |
| Text.StripChars | main.py:64 | Every character of the strip result occurs in the input. |
| Text.Split | main.py:64 | `split(sep)` gives one more piece than the input has separators. No piece contains the separator, and joining the pieces with the separator restores the input. |
| Text.SplitJoin | main.py:64 | Splitting a join of separator-free pieces gives back exactly those pieces. |
| Text.SplitAtFirst | main.py:64 | Splitting at the first separator gives the text before it, followed by the split of the rest. |
| Text.SplitChars | main.py:64 | Every character of every split piece occurs in the input. |
| Text.Contains | main.py:47 | The substring test is true exactly when the pattern occurs at some position of the text. |
| Cors.KeepNonEmpty | main.py:64 | The comprehension keeps at most as many entries as there are pieces, and every entry it keeps is non-empty. |
| Cors.KeepNonEmptySelects | main.py:64 | Entry `j` of the comprehension is `f` applied to the `j`-th piece whose image is non-empty. The pieces' order is kept. |
| Cors.ParseCorsOrigins | main.py:62-64 | The result is the wildcard exactly when the stripped value is `*`. Otherwise every listed origin is non-empty, has no whitespace at its ends and contains no comma. |
| Cors.CorsOriginsAreKeptPieces | main.py:64 | For a value other than `*`: entry `j` is the stripped `j`-th comma piece that is not all whitespace. Exactly those pieces are kept, in order. |
| Cors.PaddedStarIsWildcard | main.py:64 | A single `*` surrounded by any whitespace allows every origin. |
| Cors.BlankGivesNoOrigins | main.py:64 | A value made only of whitespace and commas gives the empty allow-list. |
| Cors.NonBlankGivesSomething | main.py:64 | A value with any character other than whitespace or a comma gives the wildcard or a non-empty list. |
| Cors.CorsEmptyExactlyWhenBlank | main.py:64 | The allow-list is empty if and only if the value consists of whitespace and commas only. |
| Cors.KeepNonEmptyOfEntries | main.py:64 | Entries that are already well-formed pass through the comprehension unchanged. |
| Cors.CorsJoinRoundTrip | main.py:64 | Writing well-formed origins comma-separated and parsing the text gives back the same list, except for the single entry `*`. |
| Cors.CorsKeepsDuplicates | main.py:64 | An origin listed twice appears twice: nothing is deduplicated. |
| Cors.TrailingCommaForcesList | main.py:64 | An entry followed by a trailing comma is a one-entry list. In particular, `*,` is the list holding `*`, not the wildcard. |
| Cors.TrailingCommaDropped | main.py:64 | For `a, b,`, the space after the comma is stripped and the empty last piece is dropped, giving exactly `[a, b]`. |
| AccessLog.AccessLogFilter | main.py:45-47 | A record is kept exactly when `/fyers/callback` occurs nowhere in its message. |
| AccessLog.CallbackLinesDropped | main.py:45-47 | Any message containing the callback path is dropped, whatever surrounds the path. |
| AccessLog.DroppedLinesMentionCallback | main.py:45-47 | A dropped message can always be written as text, then the callback path, then more text. |
| AccessLog.MessagesWithoutSlashKept | main.py:45-47 | A message with no `/` is always kept. |
| Environment.Get | main.py:5 | `os.environ.get` returns the variable's value when it is set, and the default otherwise. |
| Environment.SelectDotenv | main.py:5-10 | The environment-specific file `.env.<FLASK_ENV>` is chosen if and only if it exists. Otherwise the default `.env` is loaded. |
| Environment.SelectDotenvLooksAtOneFile | main.py:7 | The choice depends only on whether that one file exists. |
| Environment.UnsetEnvLooksForDevelopmentFile | main.py:5-10 | With `FLASK_ENV` unset, `.env.development` is the file looked for. |
| Environment.LoadDotenv | main.py:7-10 | Loading a dotenv file without override gives the union of both sets of variables. Every variable set at start keeps its value, and a variable only the file sets takes the file's value. |
| Environment.LoadDotenvIdempotent | main.py:7-10 | Loading the same file a second time changes nothing. |
| Environment.LoadedKeepsStartValue | main.py:7-10 | A variable set at start reads the same after loading. |
| AppSettings.AssembleConfig | main.py:55-64 | Gives the secret key, the async mode and the CORS allow-list, each read from its own variable with its default. The allow-list is the parse of `CORS_ORIGINS`, default `*`, and is the wildcard exactly when the stripped value is `*`. |
| AppSettings.ConfigDefaults | main.py:55-64 | With none of the three variables set, the config is the development secret, `threading` mode and every origin allowed. |
| AppSettings.ConfigReadsOnlyItsKeys | main.py:55-64 | Two environments that agree on `SECRET_KEY`, `SOCKETIO_ASYNC_MODE` and `CORS_ORIGINS` give the same configuration. |
| AppSettings.ServeSettingsFor | main.py:82-84 | Debug is off if and only if the environment name is `production`. The host is `APP_HOST`, default `0.0.0.0`. The port argument is the integer 5000 when `APP_PORT` is unset, and its text otherwise. |
| AppSettings.ServeDefaults | main.py:82-84 | With nothing set, the server runs with debug on, on 0.0.0.0:5000. |
| AppSettings.DebugOnlyOffForExactProduction | main.py:82 | Any `FLASK_ENV` other than exactly `production` leaves debug on. |
| AutoInit.AutoInitDatabase | main.py:18-43 | Ingestion is called at most once, and only when there are no tables, always with the three symbol files. Existing tables give `Skipped` with those tables. Otherwise the outcome is `Initialized` exactly when ingestion succeeds, and `FailedNonFatal` with its reason exactly when it fails. |
| AutoInit.PopulatedIgnoresIngestion | main.py:30-43 | With tables present, what ingestion would do makes no difference. |
| AutoInit.EmptyDependsOnlyOnSymbolFiles | main.py:30-41 | On an empty database, the run depends only on what ingesting the three symbol files returns. |
| AutoInit.NoFailureState | main.py:30-41 | `auto_init_database` keeps no failure state: after a failed run, any start that still finds no tables calls ingestion again with the three symbol files. |
| Entrypoint.RunMain | main.py:5-85 | The dotenv choice uses the starting environment. The configuration and the server settings are read from the starting environment with the chosen file loaded on top, without override. Initialisation is `auto_init_database` on the given tables. |
| Entrypoint.ProductionAtStartMeansNoDebug | main.py:5-10 | `FLASK_ENV=production` at start always turns debug off. No dotenv file can override it. |
| Entrypoint.DotenvDecidesDebugWhenUnset | main.py:5-10 | With `FLASK_ENV` unset at start, `.env.development` is looked for. Debug is then off exactly when the loaded file sets `FLASK_ENV=production`. |
| Entrypoint.ServingIndependentOfIngestion | main.py:37-41 | For an ingestion that returns or raises an `Exception`, the server starts with the same configuration and settings whatever the ingestion did. |
| Entrypoint.BareStartup | main.py:5-85 | With an empty environment, no environment-specific file and a default `.env` that sets nothing: the default `.env` is chosen, every origin is allowed, and the server runs with debug on, on 0.0.0.0:5000. |

## Left out

- Flask and Socket.IO construction, blueprint registration, socket event registration and `socketio.run` itself. These are framework calls; the model computes their arguments and stops there.
- Reading and parsing the dotenv file. The variables each candidate file assigns are a parameter of `Entrypoint.RunMain`; merging them into the environment is modelled.
- `find_dotenv`'s upward directory search. The model reduces it to the choice "the default `.env`".
- AutoInit.AutoInitDatabase: does not model `os.makedirs('data', exist_ok=True)` (main.py:24). Its exceptions are not caught, for example when `data` exists as a regular file or cannot be created, and they would end startup before the table check.
- AutoInit.AutoInitDatabase: does not model an exception raised by `process_all` that is not an `Exception`, such as `KeyboardInterrupt` or `SystemExit`. main.py:40 does not catch it, so it ends startup; the model's ingestion only returns or raises an `Exception`.
- AutoInit.AutoInitDatabase: does not model a `process_all` that never returns. There is no timeout, so such a call keeps the server from starting; the model's functions are total.
- AutoInit.AutoInitDatabase: does not model an ingestion that fails after creating some tables. The next start then sees tables and skips, so it never retries; `AutoInit.NoFailureState` speaks only of starts that still find no tables.
- The symbol master's internals: table listing, downloading and ingestion. They are inputs or parameters here.
- An exception raised by `SymbolMaster()` or `list_available_tables()`. It is not caught in the source and would end startup, so it falls outside the three outcomes.
- Logging calls and the debug `print` of the async mode and the allow-list. They are output only.
- AppSettings.ServeSettingsFor: does not model the `int()` conversion of a set `APP_PORT`. The variable's text is kept as is, so a non-numeric value, which makes the program fail, is not modelled.
- Entrypoint.ServingIndependentOfIngestion: holds only for an ingestion that returns or raises an `Exception`. A `BaseException` that is not an `Exception`, or a call that hangs, at main.py:38 keeps the server from starting.
- Environment values holding undecodable bytes. Python keeps them as lone surrogates, which a Dafny `char` cannot hold; the model's strings are sequences of Unicode scalar values.
- The meaning of the async mode (`threading`, `eventlet`). It is passed through as a string.

No element of the model keeps state between two starts; each start is a separate evaluation.
