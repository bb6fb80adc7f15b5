/**
  The settings the application reads from the environment: the Flask
  secret, the Socket.IO async mode and CORS allow-list, and the debug,
  host and port arguments of the development server.
 */
module AppSettings {
  import opened Text
  import opened Cors
  import opened Environment

  const DefaultSecretKey: string := "dev-secret-change-me"
  const DefaultAsyncMode: string := "threading"
  const DefaultCorsOrigins: string := "*"
  const DefaultHost: string := "0.0.0.0"
  const DefaultPort: int := 5000

  /** What the application assembler configures. */
  datatype AppConfig = AppConfig(secretKey: string, asyncMode: string, corsAllowed: CorsAllow)

  /** The application configuration read from `env`. */
  function AssembleConfig(env: Environ): (c: AppConfig)
    ensures c.secretKey == Get(env, "SECRET_KEY", DefaultSecretKey)
    ensures c.asyncMode == Get(env, "SOCKETIO_ASYNC_MODE", DefaultAsyncMode)
    ensures c.corsAllowed.Wildcard? <==> Strip(Get(env, "CORS_ORIGINS", DefaultCorsOrigins)) == "*"
    ensures c.corsAllowed == ParseCorsOrigins(Get(env, "CORS_ORIGINS", DefaultCorsOrigins))
  {
    AppConfig(
      Get(env, "SECRET_KEY", DefaultSecretKey),
      Get(env, "SOCKETIO_ASYNC_MODE", DefaultAsyncMode),
      ParseCorsOrigins(Get(env, "CORS_ORIGINS", DefaultCorsOrigins)))
  }

  /** With none of its keys set, the application allows every origin, uses
      the threading async mode and the well-known development secret. */
  lemma ConfigDefaults(env: Environ)
    requires "SECRET_KEY" !in env && "SOCKETIO_ASYNC_MODE" !in env && "CORS_ORIGINS" !in env
    ensures AssembleConfig(env) == AppConfig("dev-secret-change-me", "threading", Wildcard)
  {
    StripOfPadded([], "*", []);
    assert [] + "*" + [] == "*";
  }

  /** The configuration reads its three keys and nothing else. */
  lemma ConfigReadsOnlyItsKeys(env1: Environ, env2: Environ)
    requires forall k :: k in {"SECRET_KEY", "SOCKETIO_ASYNC_MODE", "CORS_ORIGINS"} ==>
      (k in env1 <==> k in env2) && (k in env1 ==> env1[k] == env2[k])
    ensures AssembleConfig(env1) == AssembleConfig(env2)
  {
    assert "SECRET_KEY" in {"SECRET_KEY", "SOCKETIO_ASYNC_MODE", "CORS_ORIGINS"};
    assert "SOCKETIO_ASYNC_MODE" in {"SECRET_KEY", "SOCKETIO_ASYNC_MODE", "CORS_ORIGINS"};
    assert "CORS_ORIGINS" in {"SECRET_KEY", "SOCKETIO_ASYNC_MODE", "CORS_ORIGINS"};
  }

  /** The value passed to `int(...)` as the port: the integer default when
      `APP_PORT` is unset, otherwise the variable's text. */
  datatype PortArg = PortNumber(n: int) | PortText(text: string)

  /** The arguments of `socketio.run`. */
  datatype ServeSettings = ServeSettings(debug: bool, host: string, port: PortArg)

  /** The development server's settings, read from the environment as it
      stands after the dotenv file has been loaded. Debug is on unless the
      environment name is exactly "production". */
  function ServeSettingsFor(env: Environ): (s: ServeSettings)
    ensures !s.debug <==> EnvName(env) == "production"
    ensures s.host == Get(env, "APP_HOST", DefaultHost)
    ensures "APP_PORT" !in env ==> s.port == PortNumber(DefaultPort)
    ensures "APP_PORT" in env ==> s.port == PortText(env["APP_PORT"])
  {
    ServeSettings(
      EnvName(env) != "production",
      Get(env, "APP_HOST", DefaultHost),
      if "APP_PORT" in env then PortText(env["APP_PORT"]) else PortNumber(DefaultPort))
  }

  /** Nothing set: debug on, bound to 0.0.0.0 on port 5000. */
  lemma ServeDefaults(env: Environ)
    requires "FLASK_ENV" !in env && "APP_HOST" !in env && "APP_PORT" !in env
    ensures ServeSettingsFor(env) == ServeSettings(true, "0.0.0.0", PortNumber(5000))
  {
  }

  /** The comparison is exact: any other spelling, such as "Production" or
      " production", leaves debug on. */
  lemma DebugOnlyOffForExactProduction(env: Environ)
    requires "FLASK_ENV" in env && env["FLASK_ENV"] != "production"
    ensures ServeSettingsFor(env).debug
  {
  }
}
