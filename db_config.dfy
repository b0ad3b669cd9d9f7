/** pkg/database/config/config.go: the connection settings chosen for an
    environment and a service, and the libpq connection string they are
    written out as. The process environment is a map from variable names
    to values (a missing variable reads as ""), and `time.ParseDuration`
    is a parameter returning nanoseconds, or `None` on a malformed value. */
module DbConfig {
  import opened Wrappers
  import opened Text

  const LocalEnv: string := "local"
  const DevelopmentEnv: string := "development"
  const ProductionEnv: string := "production"

  /** Durations are counted in nanoseconds, as `time.Duration` does. */
  const Minute: int := 60_000_000_000
  const Hour: int := 60 * Minute

  datatype DatabaseConfig = DatabaseConfig(
    host: string,
    port: string,
    user: string,
    password: string,
    dbName: string,
    schema: string,
    sslMode: string,
    maxConns: int,
    minConns: int,
    maxIdleTime: int,
    maxLifetime: int,
    useIAMAuth: bool,
    instanceName: string)

  /** `os.Getenv`. */
  function Getenv(vars: map<string, string>, key: string): string
  {
    if key in vars then vars[key] else ""
  }

  /** A setting read from the environment: the default when the variable
      is unset or empty, or when its value does not parse. */
  function Setting<T>(vars: map<string, string>, key: string, default: T, parse: string -> Option<T>): T
  {
    var val := Getenv(vars, key);
    if val == "" then default
    else match parse(val)
      case Some(v) => v
      case None => default
  }

  /** Go's `int32(x)`: the low 32 bits, read as a signed number. */
  function ToInt32(n: int): (r: int)
    ensures -0x8000_0000 <= r < 0x8000_0000
    ensures (n - r) % 0x1_0000_0000 == 0
    ensures -0x8000_0000 <= n < 0x8000_0000 ==> r == n
  {
    var m := n % 0x1_0000_0000;
    if m >= 0x8000_0000 then m - 0x1_0000_0000 else m
  }

  /** `NewDatabaseConfig`; `None` where the source panics on an unknown
      environment. */
  function NewDatabaseConfig(env: string, service: string, vars: map<string, string>,
                             parseDuration: string -> Option<int>): Option<DatabaseConfig>
  {
    var maxConns := Setting(vars, "PG_MAX_CONNS", 50, Atoi);
    var minConns := Setting(vars, "PG_MIN_CONNS", 5, Atoi);
    var maxIdleTime := Setting(vars, "PG_MAX_IDLE_TIME", 5 * Minute, parseDuration);
    var maxLifetime := Setting(vars, "PG_MAX_LIFETIME", 1 * Hour, parseDuration);
    if env == LocalEnv then
      Some(DatabaseConfig("localhost", "5432", "postgres", "postgres", "ranor", service, "disable",
                          ToInt32(maxConns), ToInt32(minConns), maxIdleTime, maxLifetime, false, ""))
    else if env == DevelopmentEnv || env == ProductionEnv then
      var dbUser := Getenv(vars, service + "_DB_USER");
      Some(DatabaseConfig("localhost", "5432",
                          if dbUser == "" then "postgres" else dbUser,
                          Getenv(vars, service + "_DB_PASSWORD"),
                          "ranor_" + service,
                          if env == DevelopmentEnv then service else "",
                          "disable",
                          ToInt32(maxConns), ToInt32(minConns), maxIdleTime, maxLifetime,
                          env == ProductionEnv,
                          Getenv(vars, "INSTANCE_CONNECTION_NAME")))
    else None
  }

  /** The `key=value` pairs of the connection string, in order. */
  function ConnectionParams(c: DatabaseConfig): seq<(string, string)>
  {
    if c.useIAMAuth then
      [("host", c.host), ("port", c.port), ("user", c.user), ("dbname", c.dbName), ("sslmode", c.sslMode)]
    else
      [("host", c.host), ("port", c.port), ("user", c.user), ("password", c.password),
       ("dbname", c.dbName), ("sslmode", c.sslMode)]
      + if c.schema != "" then [("search_path", c.schema)] else []
  }

  function Render(params: seq<(string, string)>): (words: seq<string>)
    ensures |words| == |params|
  {
    if params == [] then [] else [params[0].0 + "=" + params[0].1] + Render(params[1..])
  }

  /** `ConnectionString`: the pairs, space separated. */
  function ConnectionString(c: DatabaseConfig): string
  {
    Join(Render(ConnectionParams(c)), " ")
  }

  function Keys(params: seq<(string, string)>): seq<string>
  {
    if params == [] then [] else [params[0].0] + Keys(params[1..])
  }

  /** Looks a key up among the pairs. */
  function Lookup(params: seq<(string, string)>, key: string): Option<string>
  {
    if params == [] then None
    else if params[0].0 == key then Some(params[0].1)
    else Lookup(params[1..], key)
  }

  lemma {:induction false} RenderAt(params: seq<(string, string)>, i: nat)
    requires i < |params|
    ensures Render(params)[i] == params[i].0 + "=" + params[i].1
  {
    if i > 0 {
      RenderAt(params[1..], i - 1);
    }
  }

  lemma {:induction false} RenderAppend(xs: seq<(string, string)>, ys: seq<(string, string)>)
    ensures Render(xs + ys) == Render(xs) + Render(ys)
  {
    if xs != [] {
      assert (xs + ys)[1..] == xs[1..] + ys;
      RenderAppend(xs[1..], ys);
    } else {
      assert xs + ys == ys;
    }
  }

  /** The first pair with the key gives its value. */
  lemma {:induction false} LookupFirst(params: seq<(string, string)>, i: nat, key: string)
    requires i < |params| && params[i].0 == key
    requires forall j :: 0 <= j < i ==> params[j].0 != key
    ensures Lookup(params, key) == Some(params[i].1)
  {
    if i > 0 {
      LookupFirst(params[1..], i - 1, key);
    }
  }

  lemma {:induction false} LookupAbsent(params: seq<(string, string)>, key: string)
    requires forall j :: 0 <= j < |params| ==> params[j].0 != key
    ensures Lookup(params, key).None?
  {
    if params != [] {
      LookupAbsent(params[1..], key);
    }
  }

  lemma JoinCons(x: string, xs: seq<string>, sep: string)
    requires xs != []
    ensures Join([x] + xs, sep) == x + sep + Join(xs, sep)
  {
    assert ([x] + xs)[1..] == xs;
  }

  // ---- The connection string ----

  /** With IAM authentication the string names host, port, user, database
      and SSL mode, in that order, and nothing else: no password and no
      search path. */
  lemma IamConnectionString(c: DatabaseConfig)
    requires c.useIAMAuth
    ensures Lookup(ConnectionParams(c), "password").None?
    ensures Lookup(ConnectionParams(c), "search_path").None?
    ensures ConnectionString(c)
         == Join(["host=" + c.host, "port=" + c.port, "user=" + c.user, "dbname=" + c.dbName, "sslmode=" + c.sslMode], " ")
  {
    IamOmits(c);
    IamWords(c);
  }

  lemma IamOmits(c: DatabaseConfig)
    requires c.useIAMAuth
    ensures Lookup(ConnectionParams(c), "password").None?
    ensures Lookup(ConnectionParams(c), "search_path").None?
  {
    var p := ConnectionParams(c);
    assert forall j :: 0 <= j < |p| ==> p[j].0 in {"host", "port", "user", "dbname", "sslmode"};
    LookupAbsent(p, "password");
    LookupAbsent(p, "search_path");
  }

  lemma IamWords(c: DatabaseConfig)
    requires c.useIAMAuth
    ensures Render(ConnectionParams(c))
         == ["host=" + c.host, "port=" + c.port, "user=" + c.user, "dbname=" + c.dbName, "sslmode=" + c.sslMode]
  {
    var p := ConnectionParams(c);
    var w := Render(p);
    assert "host" + "=" == "host=" && "port" + "=" == "port=" && "user" + "=" == "user=";
    assert "dbname" + "=" == "dbname=" && "sslmode" + "=" == "sslmode=";
    RenderAt(p, 0);
    RenderAt(p, 1);
    RenderAt(p, 2);
    RenderAt(p, 3);
    RenderAt(p, 4);
  }

  /** With a password the string carries it, and carries a search path
      exactly when the schema is non-empty, as its last pair. */
  lemma PasswordConnectionString(c: DatabaseConfig)
    requires !c.useIAMAuth
    ensures Lookup(ConnectionParams(c), "password") == Some(c.password)
    ensures Lookup(ConnectionParams(c), "search_path") == if c.schema != "" then Some(c.schema) else None
    ensures c.schema != "" ==>
      ConnectionString(c) == ConnectionString(c.(schema := "")) + " search_path=" + c.schema
  {
    PasswordLookups(c);
    if c.schema != "" {
      SearchPathLast(c);
    }
  }

  lemma PasswordLookups(c: DatabaseConfig)
    requires !c.useIAMAuth
    ensures Lookup(ConnectionParams(c), "password") == Some(c.password)
    ensures Lookup(ConnectionParams(c), "search_path") == if c.schema != "" then Some(c.schema) else None
  {
    var p := ConnectionParams(c);
    LookupFirst(p, 3, "password");
    if c.schema != "" {
      LookupFirst(p, 6, "search_path");
    } else {
      LookupAbsent(p, "search_path");
    }
  }

  lemma SearchPathLast(c: DatabaseConfig)
    requires !c.useIAMAuth && c.schema != ""
    ensures ConnectionString(c) == ConnectionString(c.(schema := "")) + " search_path=" + c.schema
  {
    var w := "search_path=" + c.schema;
    SearchPathWords(c);
    JoinAppend(Render(ConnectionParams(c.(schema := ""))), [w], " ");
    Reassociate(ConnectionString(c.(schema := "")), " ", "search_path=", c.schema);
  }

  lemma SearchPathWords(c: DatabaseConfig)
    requires !c.useIAMAuth && c.schema != ""
    ensures Render(ConnectionParams(c)) == Render(ConnectionParams(c.(schema := ""))) + ["search_path=" + c.schema]
  {
    var base := ConnectionParams(c.(schema := ""));
    var last := [("search_path", c.schema)];
    assert ConnectionParams(c) == base + last;
    RenderAppend(base, last);
    assert last[1..] == [];
    assert "search_path" + "=" == "search_path=";
  }

  lemma Reassociate(a: string, b: string, m: string, z: string)
    ensures a + b + (m + z) == a + (b + m) + z
  {
  }

  /** Reading the string back: when no value holds a space, cutting it at
      the spaces gives exactly the `key=value` pairs, in order. */
  lemma ConnectionStringSplits(c: DatabaseConfig)
    requires forall i :: 0 <= i < |ConnectionParams(c)| ==> ' ' !in ConnectionParams(c)[i].1
    ensures Split(ConnectionString(c), ' ') == Render(ConnectionParams(c))
  {
    var p := ConnectionParams(c);
    var w := Render(p);
    forall i | 0 <= i < |w| ensures ' ' !in w[i] {
      RenderAt(p, i);
      assert ' ' !in p[i].0;
    }
    SplitJoin(w, ' ');
  }

  // ---- The environments ----

  /** Only the three known environments give a configuration. */
  lemma UnknownEnvironment(env: string, service: string, vars: map<string, string>, pd: string -> Option<int>)
    ensures NewDatabaseConfig(env, service, vars, pd).None?
        <==> env != LocalEnv && env != DevelopmentEnv && env != ProductionEnv
  {
  }

  /** The local database: fixed host, port, credentials and name, the
      service's schema, and no IAM. */
  lemma LocalConfig(service: string, vars: map<string, string>, pd: string -> Option<int>)
    ensures var r := NewDatabaseConfig(LocalEnv, service, vars, pd);
      r.Some? && r.value.host == "localhost" && r.value.port == "5432" &&
      r.value.user == "postgres" && r.value.password == "postgres" &&
      r.value.dbName == "ranor" && r.value.schema == service && r.value.sslMode == "disable" &&
      !r.value.useIAMAuth
  {
  }

  /** Cloud SQL: a per-service database and user (with `postgres` as the
      fallback user), a schema only in development, and IAM exactly in
      production. */
  lemma CloudConfig(env: string, service: string, vars: map<string, string>, pd: string -> Option<int>)
    requires env == DevelopmentEnv || env == ProductionEnv
    ensures var r := NewDatabaseConfig(env, service, vars, pd);
      var u := Getenv(vars, service + "_DB_USER");
      r.Some? && r.value.dbName == "ranor_" + service &&
      r.value.user == (if u != "" then u else "postgres") &&
      r.value.password == Getenv(vars, service + "_DB_PASSWORD") &&
      (r.value.useIAMAuth <==> env == ProductionEnv) &&
      r.value.schema == (if env == DevelopmentEnv then service else "")
  {
  }

  /** A production connection string never carries a password or a
      search path. */
  lemma ProductionHasNoSearchPath(service: string, vars: map<string, string>, pd: string -> Option<int>)
    ensures var c := NewDatabaseConfig(ProductionEnv, service, vars, pd).value;
      Lookup(ConnectionParams(c), "search_path").None? &&
      Lookup(ConnectionParams(c), "password").None?
  {
    var c := NewDatabaseConfig(ProductionEnv, service, vars, pd).value;
    assert c.useIAMAuth;
    IamConnectionString(c);
  }

  /** A development connection string selects the service's schema. */
  lemma DevelopmentSearchPath(service: string, vars: map<string, string>, pd: string -> Option<int>)
    requires service != ""
    ensures var c := NewDatabaseConfig(DevelopmentEnv, service, vars, pd).value;
      Lookup(ConnectionParams(c), "search_path") == Some(service)
  {
    var c := NewDatabaseConfig(DevelopmentEnv, service, vars, pd).value;
    PasswordConnectionString(c);
  }

  // ---- Pool sizes and lifetimes ----

  /** Unset or unparsable, the pool sizes are 50 and 5 connections and the
      lifetimes five minutes and an hour. */
  lemma Defaults(env: string, service: string, vars: map<string, string>, pd: string -> Option<int>)
    requires NewDatabaseConfig(env, service, vars, pd).Some?
    ensures var c := NewDatabaseConfig(env, service, vars, pd).value;
      (Atoi(Getenv(vars, "PG_MAX_CONNS")).None? ==> c.maxConns == 50) &&
      (Atoi(Getenv(vars, "PG_MIN_CONNS")).None? ==> c.minConns == 5) &&
      (Getenv(vars, "PG_MAX_IDLE_TIME") == "" || pd(Getenv(vars, "PG_MAX_IDLE_TIME")).None? ==>
         c.maxIdleTime == 300_000_000_000) &&
      (Getenv(vars, "PG_MAX_LIFETIME") == "" || pd(Getenv(vars, "PG_MAX_LIFETIME")).None? ==>
         c.maxLifetime == 3_600_000_000_000)
  {
  }

  /** A value that parses is taken: a pool size through Go's `int32`
      conversion, a lifetime as `time.ParseDuration` reads it. */
  lemma SettingsFromEnvironment(env: string, service: string, vars: map<string, string>, pd: string -> Option<int>)
    requires NewDatabaseConfig(env, service, vars, pd).Some?
    ensures var c := NewDatabaseConfig(env, service, vars, pd).value;
      var maxConns, minConns := Getenv(vars, "PG_MAX_CONNS"), Getenv(vars, "PG_MIN_CONNS");
      var idle, life := Getenv(vars, "PG_MAX_IDLE_TIME"), Getenv(vars, "PG_MAX_LIFETIME");
      (Atoi(maxConns).Some? ==> c.maxConns == ToInt32(Atoi(maxConns).value)) &&
      (Atoi(minConns).Some? ==> c.minConns == ToInt32(Atoi(minConns).value)) &&
      (idle != "" && pd(idle).Some? ==> c.maxIdleTime == pd(idle).value) &&
      (life != "" && pd(life).Some? ==> c.maxLifetime == pd(life).value)
  {
  }

  /** A pool size written as a 32-bit decimal is taken as given; a larger
      one keeps only its low 32 bits. */
  lemma ConnsFromEnvironment(env: string, service: string, vars: map<string, string>, pd: string -> Option<int>, n: int)
    requires NewDatabaseConfig(env, service, vars, pd).Some?
    requires MinInt64 <= n <= MaxInt64
    requires Getenv(vars, "PG_MAX_CONNS") == Itoa(n)
    ensures var c := NewDatabaseConfig(env, service, vars, pd).value;
      c.maxConns == ToInt32(n) &&
      (-0x8000_0000 <= n < 0x8000_0000 ==> c.maxConns == n)
  {
    AtoiItoa(n);
    assert Itoa(n) != "";
  }
}
