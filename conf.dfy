/**
 * Process configuration: seven settings, each first set to its default and
 * then replaced by the environment's value when that value is non-empty.
 * The environment is a parameter: a key that is absent reads as "", as
 * `os.Getenv` does for an unset variable.
 */
module Conf {

  const DefaultJwtSecret := "dev-secret-key-change-in-production"
  const DefaultDbHost := "localhost"
  const DefaultDbPort := "5432"
  const DefaultDbUser := "postgres"
  const DefaultDbPassword := "postgres"
  const DefaultDbName := "algoforces"
  const DefaultDbSslMode := "disable"

  /** The seven settings. */
  datatype Key = JwtSecret | DbHost | DbPort | DbUser | DbPassword | DbName | DbSslMode

  /** The environment variable that overrides a setting. */
  function Name(k: Key): string
  {
    match k
    case JwtSecret => "JWT_SECRET"
    case DbHost => "DB_HOST"
    case DbPort => "DB_PORT"
    case DbUser => "DB_USER"
    case DbPassword => "DB_PASSWORD"
    case DbName => "DB_NAME"
    case DbSslMode => "DB_SSLMODE"
  }

  datatype Settings = Settings(
    jwtSecret: string,
    dbHost: string,
    dbPort: string,
    dbUser: string,
    dbPassword: string,
    dbName: string,
    dbSslMode: string)

  const Defaults := Settings(DefaultJwtSecret, DefaultDbHost, DefaultDbPort,
                             DefaultDbUser, DefaultDbPassword, DefaultDbName, DefaultDbSslMode)

  /** `os.Getenv`: the value of `key`, or "" when it is not set. */
  function Getenv(env: map<string, string>, key: string): (v: string)
    ensures key in env ==> v == env[key]
    ensures key !in env ==> v == ""
  {
    if key in env then env[key] else ""
  }

  /** One setting of a settings record. */
  function Get(s: Settings, k: Key): string
  {
    match k
    case JwtSecret => s.jwtSecret
    case DbHost => s.dbHost
    case DbPort => s.dbPort
    case DbUser => s.dbUser
    case DbPassword => s.dbPassword
    case DbName => s.dbName
    case DbSslMode => s.dbSslMode
  }

  /** The default, unless the environment gives `key` a non-empty value. */
  function Setting(env: map<string, string>, key: string, default: string): (v: string)
    ensures Getenv(env, key) != "" ==> key in env && v == env[key]
    ensures Getenv(env, key) == "" ==> v == default
  {
    var envValue := Getenv(env, key);
    if envValue != "" then envValue else default
  }

  /** The settings in force once initialisation has run against `env`. */
  function Resolve(env: map<string, string>): (s: Settings)
    ensures forall k: Key :: Get(s, k) == Setting(env, Name(k), Get(Defaults, k))
  {
    Settings(
      Setting(env, Name(JwtSecret), DefaultJwtSecret),
      Setting(env, Name(DbHost), DefaultDbHost),
      Setting(env, Name(DbPort), DefaultDbPort),
      Setting(env, Name(DbUser), DefaultDbUser),
      Setting(env, Name(DbPassword), DefaultDbPassword),
      Setting(env, Name(DbName), DefaultDbName),
      Setting(env, Name(DbSslMode), DefaultDbSslMode))
  }

  /** When no variable is set to a non-empty value, every setting is its default. */
  lemma NoOverridesGiveDefaults(env: map<string, string>)
    requires forall k: Key :: Getenv(env, Name(k)) == ""
    ensures Resolve(env) == Defaults
  {
  }

  /** With an empty environment the signing secret is the built-in development secret. */
  lemma EmptyEnvironmentSecret()
    ensures Resolve(map[]).jwtSecret == "dev-secret-key-change-in-production"
  {
  }

  /** A non-empty value for the variable of `k` replaces that setting's default; an empty or absent one does not. */
  lemma OverrideReplacesDefault(env: map<string, string>, k: Key)
    ensures Getenv(env, Name(k)) != "" ==> Get(Resolve(env), k) == env[Name(k)]
    ensures Getenv(env, Name(k)) == "" ==> Get(Resolve(env), k) == Get(Defaults, k)
  {
  }

  /** Setting a variable changes no setting but its own. */
  lemma OverrideIsLocal(env: map<string, string>, name: string, v: string, k: Key)
    requires Name(k) != name
    ensures Get(Resolve(env[name := v]), k) == Get(Resolve(env), k)
  {
  }

  /** The package-level setting variables, assigned in sequence by `init`. */
  class Configuration {
    var jwtSecret: string
    var dbHost: string
    var dbPort: string
    var dbUser: string
    var dbPassword: string
    var dbName: string
    var dbSslMode: string

    function Snapshot(): Settings
      reads this
    {
      Settings(jwtSecret, dbHost, dbPort, dbUser, dbPassword, dbName, dbSslMode)
    }

    /** `init`: defaults first, then each non-empty environment value in turn. */
    constructor (env: map<string, string>)
      ensures Snapshot() == Resolve(env)
    {
      jwtSecret := DefaultJwtSecret;
      dbHost := DefaultDbHost;
      dbPort := DefaultDbPort;
      dbUser := DefaultDbUser;
      dbPassword := DefaultDbPassword;
      dbName := DefaultDbName;
      dbSslMode := DefaultDbSslMode;

      var envValue := Getenv(env, Name(JwtSecret));
      if envValue != "" { jwtSecret := envValue; }
      envValue := Getenv(env, Name(DbHost));
      if envValue != "" { dbHost := envValue; }
      envValue := Getenv(env, Name(DbPort));
      if envValue != "" { dbPort := envValue; }
      envValue := Getenv(env, Name(DbUser));
      if envValue != "" { dbUser := envValue; }
      envValue := Getenv(env, Name(DbPassword));
      if envValue != "" { dbPassword := envValue; }
      envValue := Getenv(env, Name(DbName));
      if envValue != "" { dbName := envValue; }
      envValue := Getenv(env, Name(DbSslMode));
      if envValue != "" { dbSslMode := envValue; }
    }
  }
}
