# ranor-common: the migration engine and its companions, in Dafny

This project models the core of the Go library `ranor-common` and proves
properties of that model.

**The migration and seed engine** (`pkg/database/seeder/seeder.go`):
- A `Manager` keeps two registration lists. `RunMigrations` and `RunSeeds` each:
  1. create a tracking table in a transaction of its own;
  2. sort the list (migrations by version, seeds by priority);
  3. read the keys already applied;
  4. apply every other unit in order, in its own transaction: effect script, tracking insert, commit, with a deferred rollback;
  5. stop at the first error.
- A `FileLoader` turns `.sql` file names and contents into migrations and seeds.

**The smaller components**:
- the database configuration chosen per environment, and its connection string (`pkg/database/config/config.go`);
- the bearer-token and permission middleware (`pkg/middleware/auth/auth.go`);
- the CORS middleware (`pkg/middleware/cors/cors.go`);
- the health endpoint (`pkg/health/health.go`).

The store behind the engine's `Pool`, `Tx` and `Rows` interfaces is a deterministic fake (`store.dfy`):
- It holds the two tracking tables and a log of the effect scripts that committed. SQL text is opaque.
- Every fallible call (`Begin`, `Exec`, `Commit`, `Query`, `Next`, `Scan`) takes the next number from a call counter. It fails when that number is in the pool's `failing` set, so any failure pattern can be stated.
- A transaction works on its own view of the tables, and `Commit` installs that view.
- `Rollback` cannot fail, and it does nothing once the transaction has been committed or rolled back.
- The tracking inserts honour the primary key, and a version must fit the version column.

The files:

| file | contents |
|---|---|
| `wrappers.dfy` | `Option` |
| `text.dfy` | the Go `strings`/`strconv` routines the core uses: `Split` with a one-character separator, `Join`, `HasSuffix`, `TrimSuffix`, ASCII `ToLower`, `Atoi` (64-bit range), `Itoa`; each with its round-trip law |
| `store.dfy` | the fake store: `Pool`, `Tx` and `Rows` classes, statement semantics, failure oracle |
| `entities.dfy` | `Migration`, `Seed`, and the `Unit` both pipelines reduce to (key, effect scripts, tracking insert) |
| `runs.dfy` | what a run does, as functions of the store state; atomicity, progress, skip-if-applied, fail-fast, idempotence, resume |
| `sorting.dfy` | sorting by an integer key: sorted and a permutation |
| `seeder.dfy` | the `Manager` class; each method is proved equal to the functions of `runs.dfy` |
| `loader.dfy` | file-name parsing, the migration merge and the seed list, and the two loader loops |
| `db_config.dfy` | `NewDatabaseConfig` and `ConnectionString` |
| `auth.dfy` | `extractToken` and the 401/403 decision chains |
| `cors.dfy` | `joinStrings`, `DefaultCORSConfig` and the CORS handler on a gin-like context class |
| `health.dfy` | the health handler's loop and `DBChecker` |
| `version_width.dfy` | the versions `ranor-migrate generate` writes against the type of the version column |

Behaviour of the source worth knowing, which the model follows:
- A migration version may be negative. `strconv.Atoi` accepts a sign, and the loader does not check it.
- The sort is `sort.Slice`, which is not stable. Only "sorted by the key and a permutation" is promised. The model uses one particular sort: an insertion sort.
- Two registered migrations with the same version are both attempted. The applied set is read once before the loop, so the second one's Up script runs. Its tracking insert then fails on the primary key, the transaction rolls back, and the run stops (`Runs.DuplicateRecordRejected`).
- `Rows.Next` answers false both at the end of the rows and when reading the next row fails, and the `Rows` interface has no `Err`. A read of the applied set can therefore end early without an error (`Runs.ShortRead`). The units it missed are attempted again. Each runs its effect script, fails on the primary key at its tracking insert, and stops the run with nothing committed (`Runs.RecordedUnitsChangeNothing`).
- The CORS handler never consults `AllowedOrigins`. It echoes the request's `Origin` header, with credentials allowed.

## Model

| member | source | states |
|---|---|---|
| Store.ApplyIn | pkg/database/seeder/seeder.go:250-254 | an insert whose version does not fit the version column (32 bits for `integer`, 64 for `bigint`) fails; table creation and effect scripts behave as in `Apply` |
| Store.Apply | pkg/database/seeder/seeder.go:243-262 | `CREATE TABLE IF NOT EXISTS` always succeeds, creates the table and changes nothing when it already exists; an effect script is appended to the effect log |
| Store.ApplyInsert | pkg/database/seeder/seeder.go:311-314 | a tracking insert succeeds iff its table exists, its version is a 64-bit value and its key is new; it then adds exactly that key, touches nothing else, and keeps the primary key unique |
| Store.ApplyKeepsRows | pkg/database/seeder/seeder.go:250-256 | table creation and effect scripts never touch tracking rows |
| Store.Pool.Begin | pkg/database/seeder/seeder.go:31-34 | `Begin` fails exactly where the oracle says; otherwise a fresh open transaction seeing the committed tables |
| Store.Pool.Query | pkg/database/seeder/seeder.go:31-34 | a query fails on an injected fault or a missing table; otherwise a cursor over the table's keys |
| Store.Tx.Exec | pkg/database/seeder/seeder.go:36-41 | a statement changes the transaction's view only when it succeeds; closed transactions refuse statements |
| Store.Tx.Commit | pkg/database/seeder/seeder.go:36-41 | a successful commit installs the view in the pool; a failed one changes neither |
| Store.Tx.Rollback | pkg/database/seeder/seeder.go:36-41 | rollback after commit (or a second rollback) is a no-op |
| Store.Rows.Next | pkg/database/seeder/seeder.go:21-25 | advances iff a row remains and reading it does not fail, and reports whether it did; a failure looks like the end of the rows |
| Store.Rows.Scan | pkg/database/seeder/seeder.go:21-25 | reads the current row's key; fails only where the oracle says |
| Runs.ExecScriptsLogs | pkg/database/seeder/seeder.go:214-216 | a seed's scripts succeed iff none of their calls is faulted, and then append exactly themselves to the effect log |
| Runs.ApplyUnitAtomic | pkg/database/seeder/seeder.go:300-338 | atomicity: a unit commits its effect together with its tracking row, and only if its key was not recorded; any failure leaves the tables unchanged; a failure that names a unit (while executing or recording) names this unit, while begin and commit failures name none |
| Runs.DuplicateRecordRejected | pkg/database/seeder/seeder.go:311-317 | a unit whose key is already recorded never commits and changes nothing |
| Runs.Bootstrap | pkg/database/seeder/seeder.go:223-262 | tracking-table creation either leaves the table existing and nothing else changed, or returns an unwrapped store error and changes nothing |
| Runs.SkipApplied | pkg/database/seeder/seeder.go:87-93 | a unit whose key is in the applied set plays no part: the run equals the run over the pending units alone |
| Runs.FailFast | pkg/database/seeder/seeder.go:87-93 | after the first failure no later unit is attempted: appending units after it changes neither the calls nor the tables |
| Runs.RunUnitsCommitsPrefix | pkg/database/seeder/seeder.go:112-118 | a run commits the first k pending units in list order, each with its tracking row; it succeeds iff k covers them all; a failure that names a unit (while executing or recording) names pending unit k, while begin and commit failures name none |
| Runs.ScanRowsReads | pkg/database/seeder/seeder.go:271-278 | a loop still reading has read every row so far at two calls a row; one that ended quietly holds only keys of rows; without faults it never ends early |
| Runs.ScanKeysReads | pkg/database/seeder/seeder.go:271-279 | a scan returns only keys of rows, and every row's key when none of its calls fails |
| Runs.ScanRowsSnoc | pkg/database/seeder/seeder.go:271-277 | step lemma for the `ScanAll` loop: the scan over one more row is one `ScanStep` after the scan over the rows before it |
| Runs.NextFailed | pkg/database/seeder/seeder.go:271 | a failing `Next` ends the whole scan there with the keys read so far and no error |
| Runs.ScanRowsStop | pkg/database/seeder/seeder.go:274-276 | once the loop has ended no later row is read |
| Runs.ShortRead | pkg/database/seeder/seeder.go:271-279 | when the first `Next` fails the read returns no keys and no error, whatever the table holds |
| Runs.ReadApplied | pkg/database/seeder/seeder.go:264-268 | reading the applied set always consumes the query call |
| Runs.ReadAppliedIsRecorded | pkg/database/seeder/seeder.go:264-280 | the applied set that is read holds only recorded keys, and is exactly the recorded keys, after exactly 2 calls per row plus 2, when none of the read's calls fails |
| Runs.BootstrapFailureStops | pkg/database/seeder/seeder.go:73-76 | when the tracking table cannot be created, the run returns that error and no unit is attempted |
| Runs.ApplyUnitWithoutFaults | pkg/database/seeder/seeder.go:300-318 | progress: a unit whose table exists and whose key is new commits, with exactly its effect and tracking row, when none of its calls fails |
| Runs.DoneRecordsAll | pkg/database/seeder/seeder.go:87-95 | after a successful run every registered unit's key is recorded, given an applied set of recorded keys only |
| Runs.FirstRunRecordsAll | pkg/database/seeder/seeder.go:73-95 | a successful pipeline leaves the tracking table existing and every unit's key recorded |
| Runs.RecordedUnitsChangeNothing | pkg/database/seeder/seeder.go:87-93 | units whose keys are all recorded change no table whatever the applied set misses, and the run succeeds iff none of them is pending |
| Runs.RerunChangesNothing | pkg/database/seeder/seeder.go:82-93 | idempotence: a second run of the same units against the store kept from a successful run changes no table, whatever faults occur; when its read returns every recorded key (in particular when none of the read's calls fails) it succeeds right after the read with no further call |
| Runs.PendingAfterPrefix | pkg/database/seeder/seeder.go:107-118 | with distinct keys, recording the first k pending units leaves exactly the rest pending |
| Runs.ResumeAfterFailure | pkg/database/seeder/seeder.go:87-93 | after a failed run the store keeps the earlier commits, and a rerun finds exactly the failed unit and those after it pending, in the same order |
| Runs.PendingIn | pkg/database/seeder/seeder.go:88 | pending units are registered units whose key is not applied |
| Runs.PendingHas | pkg/database/seeder/seeder.go:88 | every registered unit whose key is not applied is pending |
| Entities.MigrationUnitsRecord | pkg/database/seeder/seeder.go:311-313 | every migration records its own version in `schema_migrations` |
| Entities.SeedUnitsRecord | pkg/database/seeder/seeder.go:331-333 | every seed records its own name in `schema_seeds` |
| Sorting.SortBySorted | pkg/database/seeder/seeder.go:78-80 | the sort yields a permutation of the list that is non-decreasing by the key |
| Sorting.InsertPermutes | pkg/database/seeder/seeder.go:103-105 | inserting one element adds exactly it |
| Sorting.InsertSorted | pkg/database/seeder/seeder.go:103-105 | insertion keeps the list sorted |
| Seeder.Manager.constructor | pkg/database/seeder/seeder.go:27-29 | a new manager has the pool and empty lists |
| Seeder.Manager.AddMigration | pkg/database/seeder/seeder.go:65-67 | appends the migration |
| Seeder.Manager.AddSeed | pkg/database/seeder/seeder.go:69-71 | appends the seed |
| Seeder.Manager.CreateTrackingTable | pkg/database/seeder/seeder.go:243-262 | begin, create, commit with deferred rollback is exactly `Bootstrap` |
| Seeder.Manager.GetApplied | pkg/database/seeder/seeder.go:264-280 | query then scan is exactly `ReadApplied` |
| Seeder.Manager.ScanAll | pkg/database/seeder/seeder.go:271-279 | the `Next`/`Scan` loop is exactly `ScanKeys` over the cursor's rows, including the quiet end on a failing `Next` |
| Seeder.Manager.RunMigration | pkg/database/seeder/seeder.go:300-318 | begin, Up script, tracking insert, commit, each failure wrapped, is exactly `ApplyUnit` |
| Seeder.Manager.RunSeed | pkg/database/seeder/seeder.go:320-338 | begin, the seed's scripts, tracking insert, commit is exactly `ApplyUnit` |
| Seeder.RunScripts | pkg/database/seeder/seeder.go:327 | a seed's `Run` executes its scripts in order and returns the first error |
| Seeder.ExecScriptsStop | pkg/database/seeder/seeder.go:327-329 | after a failing script no later script runs |
| Seeder.Manager.RunMigrations | pkg/database/seeder/seeder.go:73-96 | the run is exactly `RunPipeline` over the sorted list; the list is left sorted by version and a permutation of what was registered once the table exists, and untouched otherwise |
| Seeder.Manager.ApplyMigrations | pkg/database/seeder/seeder.go:87-93 | the loop over the sorted migrations is exactly `RunUnits` |
| Seeder.Manager.RunSeeds | pkg/database/seeder/seeder.go:98-121 | as `RunMigrations`, by priority, over `schema_seeds` |
| Seeder.Manager.ApplySeeds | pkg/database/seeder/seeder.go:112-118 | the loop over the sorted seeds is exactly `RunUnits` |
| Loader.MigrationNameTooShort | pkg/database/seeder/seeder.go:141-144 | fewer than two `_` before `.sql` is an invalid migration name |
| Loader.ParseMigrationNameOf | pkg/database/seeder/seeder.go:141-152 | `pre_desc_last.sql` reads as version `Atoi(pre)` (or an invalid-version error), description `desc` whatever `_` it holds, and up iff `last` ends in "up" |
| Loader.MigrationNameParts | pkg/database/seeder/seeder.go:141-152 | every migration name that parses has that shape |
| Loader.SeedNameTooShort | pkg/database/seeder/seeder.go:198-201 | a name without `_` before `.sql` is an invalid seed name |
| Loader.ParseSeedNameOf | pkg/database/seeder/seeder.go:198-208 | `pre_rest.sql` reads as priority `Atoi(pre)` (or an invalid-priority error) and name `rest` |
| Loader.SeedNameParts | pkg/database/seeder/seeder.go:198-208 | every seed name that parses has that shape |
| Loader.GeneratedMigrationRoundTrip | cmd/ranor-migrate/main.go:80-86 | the names `ranor-migrate` writes read back as the timestamp's value, the given name and the right direction |
| Loader.GeneratedSeedRoundTrip | cmd/ranor-migrate/main.go:102 | a generated seed name reads back as the timestamp's value and the given name |
| Loader.MergeMigrationsMeaning | pkg/database/seeder/seeder.go:151-168 | one migration per version some file names; its description is that of the first file for the version, its Up and Down the contents of the last up and down files ("" if none) |
| Loader.MergeFailsAtFirstBad | pkg/database/seeder/seeder.go:130-149 | a failed load reports the first `.sql` file with a bad name, and its error |
| Loader.MergeSeesBad | pkg/database/seeder/seeder.go:142-149 | any `.sql` file with a bad name makes the load fail |
| Loader.MergeLoadsWhenGood | pkg/database/seeder/seeder.go:130-169 | without such a file the load succeeds |
| Loader.MergeIgnoresNonSql | pkg/database/seeder/seeder.go:131-133 | files without `.sql` make no difference |
| Loader.MergeTwo | pkg/database/seeder/seeder.go:154-168 | an up and a down file of one version merge into one migration with both contents |
| Loader.GeneratedPairMerges | pkg/database/seeder/seeder.go:123-178 | the up/down pair `ranor-migrate` writes loads, in either order, to exactly one migration with the given name and both contents |
| Loader.LoadMigrationsFromDir | pkg/database/seeder/seeder.go:123-178 | the loader fails iff the merge does, with its error and no migrations; otherwise it lists each merged migration exactly once |
| Loader.MergeEntries | pkg/database/seeder/seeder.go:130-169 | the loop over the entries is exactly the merge |
| Loader.MapToList | pkg/database/seeder/seeder.go:172-175 | the values of the map, each exactly once |
| Loader.LoadSeedsMeaning | pkg/database/seeder/seeder.go:186-220 | one seed per `.sql` file, in directory order, parsed from its name and running exactly its content |
| Loader.SeedsFailAtFirstBad | pkg/database/seeder/seeder.go:197-206 | a failed seed load reports the first `.sql` file with a bad seed name |
| Loader.SeedsSeeBad | pkg/database/seeder/seeder.go:199-206 | any `.sql` file with a bad seed name makes the load fail |
| Loader.LoadSeedsFromDir | pkg/database/seeder/seeder.go:180-221 | the loop is exactly the seed list, and returns no seeds on error |
| DbConfig.ToInt32 | pkg/database/config/config.go:87-88 | `int32(x)` keeps the value when it fits and otherwise wraps modulo 2^32 |
| DbConfig.UnknownEnvironment | pkg/database/config/config.go:119-120 | exactly the three known environments give a configuration |
| DbConfig.LocalConfig | pkg/database/config/config.go:77-91 | local: localhost:5432, postgres/postgres, database `ranor`, schema = service, SSL disabled, no IAM |
| DbConfig.CloudConfig | pkg/database/config/config.go:92-118 | development and production: database `ranor_<service>`, user from `<service>_DB_USER` or `postgres`, password from the environment, IAM iff production, schema only in development |
| DbConfig.Defaults | pkg/database/config/config.go:36-74 | each pool size and lifetime falls back to its default (50 and 5 connections, 5 minutes and 1 hour) when its variable is unset, empty or does not parse |
| DbConfig.SettingsFromEnvironment | pkg/database/config/config.go:36-74 | a non-empty value that parses is taken: `PG_MAX_CONNS` and `PG_MIN_CONNS` through `Atoi` narrowed to 32 bits, `PG_MAX_IDLE_TIME` and `PG_MAX_LIFETIME` as `time.ParseDuration` reads them |
| DbConfig.ConnsFromEnvironment | pkg/database/config/config.go:38-44 | a decimal `PG_MAX_CONNS` is taken as given, narrowed to 32 bits |
| DbConfig.IamConnectionString | pkg/database/config/config.go:126-132 | with IAM the string joins exactly `host=…`, `port=…`, `user=…`, `dbname=…`, `sslmode=…` with spaces, in that order, without password or search_path |
| DbConfig.PasswordConnectionString | pkg/database/config/config.go:135-144 | without IAM the string carries the password, and carries ` search_path=<schema>` at its end iff the schema is non-empty |
| DbConfig.ConnectionStringSplits | pkg/database/config/config.go:125-145 | when no value holds a space, cutting the string at spaces gives back the `key=value` pairs in order |
| DbConfig.ProductionHasNoSearchPath | pkg/database/config/config.go:114-116 | production strings never carry a password or a search path |
| DbConfig.DevelopmentSearchPath | pkg/database/config/config.go:140-142 | development strings select the service's schema |
| Auth.ExtractTokenOf | pkg/middleware/auth/auth.go:127-134 | `scheme token` gives the token iff the lower-cased scheme is "bearer" |
| Auth.ExtractTokenNeedsOneSpace | pkg/middleware/auth/auth.go:129-133 | a header without exactly one space gives no token |
| Auth.ExtractTokenShape | pkg/middleware/auth/auth.go:129-131 | a returned token holds no space, and the header is a bearer scheme, one space and the token |
| Auth.SchemeCaseInsensitive | pkg/middleware/auth/auth.go:130 | schemes equal up to case give the same token |
| Auth.ExtractTokenSchemes | pkg/middleware/auth/auth.go:130-133 | "BEARER x" and "bearer x" give "x"; "Basic x" gives "" |
| Auth.ExtractTokenSpacing | pkg/middleware/auth/auth.go:129-133 | "Bearer a b", "Bearer  x" and "" give "" |
| Auth.NoTokenNoValidation | pkg/middleware/auth/auth.go:40-45 | without a token the answer is 401 "Unauthorized" whatever the validator would say |
| Auth.AuthenticatePasses | pkg/middleware/auth/auth.go:38-75 | the request goes on iff the token validates and is unexpired, carrying the validator's claims; every refusal is 401: "Invalid token" when validation fails, "Token expired" when the claims have expired |
| Auth.PermissionHandlers | pkg/middleware/auth/auth.go:77-124 | 401 without claims, 403 when the claims lack all (any) permissions, otherwise the request passes with the same claims |
| Auth.GuardKeepsContext | pkg/middleware/auth/auth.go:80-97 | a guard passes the context unchanged, and refuses with 401 exactly when there are no claims |
| Auth.AuthenticateThenGuard | pkg/middleware/auth/auth.go:72-97 | authentication then a guard: the handler runs iff the token is valid, unexpired and permitted; 403 only for an authenticated request |
| Cors.DefaultCorsConfig | pkg/middleware/cors/cors.go:17-24 | origins `*`, methods GET/POST/PUT/DELETE/OPTIONS, headers Content-Type/Authorization, max age 86400 |
| Cors.DefaultPreflight | pkg/middleware/cors/cors.go:17-34 | the default preflight answer is "GET, POST, PUT, DELETE, OPTIONS", "Content-Type, Authorization" and "86400" |
| Cors.JoinStrings | pkg/middleware/cors/cors.go:47-56 | the loop yields `strings.Join(xs, ", ")`: "" for none, one element unchanged, otherwise the elements in order |
| Cors.GinContext.SetHeader | pkg/middleware/cors/cors.go:31-37 | sets one response header |
| Cors.GinContext.AbortWithStatus | pkg/middleware/cors/cors.go:40 | sets the status and aborts |
| Cors.GinContext.Next | pkg/middleware/cors/cors.go:44 | counts one call of the next handler |
| Cors.HandleCors | pkg/middleware/cors/cors.go:26-46 | every request gets Allow-Origin = its `Origin` header and Allow-Credentials "true"; only OPTIONS gets Allow-Methods, Allow-Headers and Max-Age, and it aborts with 204 without calling next; any other method calls next exactly once; no other header changes |
| Health.NewDBChecker | pkg/health/health.go:79-92 | `Check` returns exactly the ping's result and `Name` the configured name |
| Health.DetailOf | pkg/health/health.go:43-52 | a detail is "unhealthy", with the error message, exactly when its check fails |
| Health.HealthHandler | pkg/health/health.go:32-69 | every checker runs; the status is "unhealthy" iff some check fails, and then the code is 503 (200 otherwise); the details are those of the checkers in order |
| Health.DetailsKeys | pkg/health/health.go:42-55 | the details are keyed by exactly the checkers' names |
| Health.DetailsLast | pkg/health/health.go:54 | with duplicate names the last checker wins |
| Health.UnhealthyDetailMeansUnhealthy | pkg/health/health.go:48-54 | an unhealthy detail implies an unhealthy service |
| Health.UnhealthyIffSomeDetail | pkg/health/health.go:42-55 | with distinct names, the service is unhealthy iff some detail is |
| VersionWidth.GeneratedVersion | cmd/ranor-migrate/main.go:72-80 | a generated migration's version is its 14-digit timestamp's value, between 10^13 and 10^14 |
| VersionWidth.IntegerColumnRefusesGenerated | pkg/database/seeder/seeder.go:250-254 | with the `integer` column as written, the tracking insert of a generated version fails on every table: out of range once the table exists |
| VersionWidth.IntegerColumnNeverRecordsGenerated | pkg/database/seeder/seeder.go:250-254 | with the `integer` column as written, `runMigration` of a generated migration fails whatever the oracle does and leaves the tables unchanged; with no failing call it fails at the tracking insert as "recording migration N" with an out-of-range cause |
| VersionWidth.GeneratedMigrationCommits | pkg/database/seeder/seeder.go:300-318 | with a `bigint` column, a new generated migration commits when no call fails, and its version is recorded |
| Text.DigitsValueBounds | cmd/ranor-migrate/main.go:72 | a digit string of length n is below 10^n, and at least 10^(n-1) without a leading zero |
| Health.DuplicateNameHidesFailure | pkg/health/health.go:54 | with a repeated name, a failing checker's detail can be overwritten: unhealthy service, only healthy details |

## Left out

- I/O is not modelled: `os.ReadDir`/`os.ReadFile` and their errors. The loaders take the directory as a list of (name, content) entries.
- The pgx adapter and connection code (`pkg/database/adapter/adapter.go`, `pkg/database/connection/db.go`) are not part of this model. The fake store stands in for them.
- SQL semantics are not modelled. Effect scripts are opaque text that the store logs.
- Contexts, cancellation and concurrency between processes are not modelled. A cancelled call is one more failure the oracle can inject: an error from `Begin`, `Exec`, `Commit`, `Query` or `Scan`, and a quiet `false` from `Rows.Next`. The primary key is the only guard between processes, as in the source.
- Runs.ReadAppliedIsRecorded: promises that the applied set equals the recorded keys only when none of the read's calls fails. Otherwise it promises only that the set is a subset, because a failing `Rows.Next` ends the loop early without an error.
- Runs.RerunChangesNothing: promises that the second run succeeds right after its read only when that read returns every recorded key. After a short read it promises only that no table changes.
- Store.Apply: the model's store gives `schema_migrations.version` the type `bigint`, where the source declares `integer` (see Findings). `Store.ApplyIn(Integer, ..)` and `Runs.ApplyUnitIn(Integer, ..)` are the table as written.
- `Tx.QueryRow` and `Rows.Close` are not modelled. The engine never calls `QueryRow`, and `Close` has no observable effect on the fake store.
- Seed.Run: a seed's `Run` callback is modelled as a list of scripts run in order. A seed loaded from a file runs exactly its content.
- Seeder.Manager.RunMigrations: ties under the unstable `sort.Slice` are resolved by the model's own insertion sort. The ensures ties the run to that list, and what is promised of it (sorted by the key, a permutation) is all the source promises.
- Loader.LoadMigrationsFromDir: does not state the order of the result, which follows Go's map iteration order. It promises only that every merged migration appears exactly once.
- Error texts are kept as structured values (the wrapped cause and the unit's key). They are not `fmt.Errorf` strings.
- DbConfig.NewDatabaseConfig: `time.ParseDuration` is a parameter, and `log.Printf` is left out. An unknown environment gives `None` where the source panics.
- Auth.ExtractToken: `strings.ToLower` is modelled on ASCII letters only.
- Token validation, expiry and the `claims` package are not part of this model. They are parameters: a validator returning optional claims, and predicates for expiry and permissions.
- zap logging is left out of every middleware.
- Cors.HandleCors: header names are compared as given. `http.Header` key canonicalisation is not modelled.
- Health.HealthHandler: timestamps and the JSON body are not modelled, nor is the 500 answer when encoding fails (a write error).
- `ServiceChecker` is not modelled, since its check is an HTTP request.
- The rate limiter, the loggers, panic recovery, the context helpers and the CLI's flag handling and file writing are outside this core. From the CLI, only the file-name formats are modelled.

## Findings

| source | as written | input that shows it | evidently intended | confidence | as-written member | corrected member |
|---|---|---|---|---|---|---|
| pkg/database/seeder/seeder.go:252 | `schema_migrations.version` is `integer` (32 bits), but `ranor-migrate generate` names migrations by a 14-digit timestamp (cmd/ranor-migrate/main.go:72) | a migration generated at 2026-10-17 12:34:56 has version 20261017123456 > 2147483647; its tracking insert fails, the transaction rolls back, and `RunMigrations` returns "recording migration ..." on every run | a column wide enough for every Go `int` version (`bigint`), so that generated migrations are recorded | not executed | VersionWidth.IntegerColumnNeverRecordsGenerated | VersionWidth.GeneratedMigrationCommits |
