/** internal/config/config.go: LoadConfig as a function of the environment. */
module Config {
  import opened Results
  import opened Strings

  const DefaultMongoURI := "mongodb://localhost:27017"
  const DefaultMongoDBName := "audit_logs"

  datatype Config = Config(port: string, dbUrl: string, mongoUri: string, mongoDbName: string)

  /** os.Getenv: the variable's value, "" when it is unset. */
  function Getenv(env: map<string, string>, key: string): string
  {
    if key in env then env[key] else ""
  }

  /** The environment after godotenv.Load (line 18): the `.env` file, when it
      can be read, adds its variables but never overrides one already set. */
  function LoadDotenv(system: map<string, string>, dotenv: Option<map<string, string>>): (env: map<string, string>)
    ensures forall k :: k in system ==> k in env && env[k] == system[k]
    ensures dotenv.None? ==> env == system
    ensures dotenv.Some? ==> env.Keys == system.Keys + dotenv.value.Keys
    ensures dotenv.Some? ==> forall k :: k in dotenv.value && k !in system ==> env[k] == dotenv.value[k]
  {
    match dotenv
    case None => system
    case Some(file) => map k | k in system.Keys + file.Keys :: if k in system then system[k] else file[k]
  }

  /** The connection string of lines 23-32. */
  function DBUrl(env: map<string, string>): (url: string)
    ensures |url| >= 5 && url[..5] == "host="
  {
    var base := BaseDBUrl(env);
    if Getenv(env, "DB_CHANNEL_BINDING") != "" then base + " channel_binding=" + Getenv(env, "DB_CHANNEL_BINDING")
    else base
  }

  /** The key=value fields the connection string is meant to carry. */
  function DsnFields(env: map<string, string>): seq<string>
  {
    BaseFields(env)
    + (if Getenv(env, "DB_CHANNEL_BINDING") != "" then ["channel_binding=" + Getenv(env, "DB_CHANNEL_BINDING")] else [])
  }

  /** Six pieces joined by spaces, written out. */
  lemma JoinSix(a: string, b: string, c: string, d: string, e: string, g: string)
    ensures Join([a, b, c, d, e, g], ' ') == a + " " + b + " " + c + " " + d + " " + e + " " + g
  {
    assert Join([a], ' ') == a;
    JoinAppend([a], b, ' ');
    assert [a] + [b] == [a, b];
    JoinAppend([a, b], c, ' ');
    assert [a, b] + [c] == [a, b, c];
    JoinAppend([a, b, c], d, ' ');
    assert [a, b, c] + [d] == [a, b, c, d];
    JoinAppend([a, b, c, d], e, ' ');
    assert [a, b, c, d] + [e] == [a, b, c, d, e];
    JoinAppend([a, b, c, d, e], g, ' ');
    assert [a, b, c, d, e] + [g] == [a, b, c, d, e, g];
  }

  /** The connection string without its optional channel_binding field. */
  function BaseDBUrl(env: map<string, string>): string
  {
    "host=" + Getenv(env, "DB_HOST")
      + " user=" + Getenv(env, "DB_USER")
      + " password=" + Getenv(env, "DB_PASSWORD")
      + " dbname=" + Getenv(env, "DB_NAME")
      + " port=" + Getenv(env, "DB_PORT")
      + " sslmode=" + Getenv(env, "DB_SSLMODE")
  }

  /** The six mandatory key=value fields, in order. */
  function BaseFields(env: map<string, string>): seq<string>
  {
    ["host=" + Getenv(env, "DB_HOST"),
     "user=" + Getenv(env, "DB_USER"),
     "password=" + Getenv(env, "DB_PASSWORD"),
     "dbname=" + Getenv(env, "DB_NAME"),
     "port=" + Getenv(env, "DB_PORT"),
     "sslmode=" + Getenv(env, "DB_SSLMODE")]
  }

  /** Appending " key=value" is appending a space and then the field "key=value". */
  lemma AppendField(prefix: string, key: string, value: string)
    ensures prefix + ([' '] + key) + value == prefix + [' '] + (key + value)
  {
  }

  lemma BaseIsJoin(env: map<string, string>)
    ensures BaseDBUrl(env) == Join(BaseFields(env), ' ')
  {
    var f := BaseFields(env);
    JoinSix(f[0], f[1], f[2], f[3], f[4], f[5]);
    var s1 := f[0];
    assert " user=" == [' '] + "user=";
    AppendField(s1, "user=", Getenv(env, "DB_USER"));
    var s2 := s1 + " " + f[1];
    assert " password=" == [' '] + "password=";
    AppendField(s2, "password=", Getenv(env, "DB_PASSWORD"));
    var s3 := s2 + " " + f[2];
    assert " dbname=" == [' '] + "dbname=";
    AppendField(s3, "dbname=", Getenv(env, "DB_NAME"));
    var s4 := s3 + " " + f[3];
    assert " port=" == [' '] + "port=";
    AppendField(s4, "port=", Getenv(env, "DB_PORT"));
    var s5 := s4 + " " + f[4];
    assert " sslmode=" == [' '] + "sslmode=";
    AppendField(s5, "sslmode=", Getenv(env, "DB_SSLMODE"));
  }

  /** The connection string is its fields joined by single spaces; so when no
      value contains a space, splitting it on spaces gives back exactly those
      fields, the channel_binding field included iff DB_CHANNEL_BINDING is
      set. (Values are not quoted: one with a space in it splits apart.) */
  lemma DBUrlFields(env: map<string, string>)
    ensures |DsnFields(env)| >= 1 && DBUrl(env) == Join(DsnFields(env), ' ')
    ensures SeparatorFree(DsnFields(env), ' ') ==> Split(DBUrl(env), ' ') == DsnFields(env)
  {
    BaseIsJoin(env);
    var binding := "channel_binding=" + Getenv(env, "DB_CHANNEL_BINDING");
    if Getenv(env, "DB_CHANNEL_BINDING") != "" {
      JoinAppend(BaseFields(env), binding, ' ');
      assert " channel_binding=" == [' '] + "channel_binding=";
      AppendField(BaseDBUrl(env), "channel_binding=", Getenv(env, "DB_CHANNEL_BINDING"));
      assert DsnFields(env) == BaseFields(env) + [binding];
    } else {
      assert DsnFields(env) == BaseFields(env);
    }
    if SeparatorFree(DsnFields(env), ' ') {
      SplitJoin(DsnFields(env), ' ');
    }
  }

  /** LoadConfig (lines 17-54). The fatal branch for an empty connection
      string (lines 34-36) is unreachable: the string always starts "host=". */
  function LoadConfig(system: map<string, string>, dotenv: Option<map<string, string>>): (cfg: Config)
    ensures var env := LoadDotenv(system, dotenv);
      && cfg.dbUrl == DBUrl(env) && cfg.dbUrl != ""
      && cfg.port == Getenv(env, "PORT")
      && (Getenv(env, "MONGO_URI") == "" ==> cfg.mongoUri == DefaultMongoURI)
      && (Getenv(env, "MONGO_URI") != "" ==> cfg.mongoUri == Getenv(env, "MONGO_URI"))
      && (Getenv(env, "MONGO_DB_NAME") == "" ==> cfg.mongoDbName == DefaultMongoDBName)
      && (Getenv(env, "MONGO_DB_NAME") != "" ==> cfg.mongoDbName == Getenv(env, "MONGO_DB_NAME"))
  {
    var env := LoadDotenv(system, dotenv);
    var mongoUri := if Getenv(env, "MONGO_URI") == "" then DefaultMongoURI else Getenv(env, "MONGO_URI");
    var mongoDbName := if Getenv(env, "MONGO_DB_NAME") == "" then DefaultMongoDBName else Getenv(env, "MONGO_DB_NAME");
    Config(Getenv(env, "PORT"), DBUrl(env), mongoUri, mongoDbName)
  }
}
