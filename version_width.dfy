/** The versions `ranor-migrate generate` gives new migrations
    (cmd/ranor-migrate/main.go) against the type of the
    `schema_migrations.version` column
    (pkg/database/seeder/seeder.go). */
module VersionWidth {
  import opened Text
  import opened Store
  import opened Entities
  import opened Runs
  import Loader

  /** A timestamp as `time.Now().Format("20060102150405")` writes it:
      fourteen digits, starting with the year. */
  predicate Timestamp(ts: string)
  {
    |ts| == 14 && AllDigits(ts) && ts[0] != '0'
  }

  /** A generated migration's version is its timestamp's value, between
      `10^13` and `10^14`. */
  lemma GeneratedVersion(ts: string, name: string, up: bool)
    requires Timestamp(ts)
    ensures 10_000_000_000_000 <= DigitsValue(ts) < 100_000_000_000_000
    ensures Loader.ParseMigrationName(Loader.GeneratedMigrationName(ts, name, up))
         == Loader.Loaded(Loader.MigrationFile(DigitsValue(ts), name, up))
  {
    DigitsValueBounds(ts);
    assert Pow10(13) == 10_000_000_000_000;
    Loader.GeneratedMigrationRoundTrip(ts, name, up);
  }

  /** The tracking table as written, with an `integer` version column,
      refuses every generated version: the insert fails whatever the
      table holds, so such a migration is never recorded. */
  lemma IntegerColumnRefusesGenerated(ts: string, name: string, t: Tables)
    requires Timestamp(ts)
    ensures ApplyIn(Integer, t, InsertMigration(DigitsValue(ts), name)).Err?
    ensures t.migrationsTable ==>
      ApplyIn(Integer, t, InsertMigration(DigitsValue(ts), name)) == Err(OutOfRange(DigitsValue(ts)))
  {
    GeneratedVersion(ts, name, true);
  }

  /** As written, `runMigration` never records a generated migration:
      whatever the oracle does it fails and leaves the tables as they
      were. When no call fails it runs the Up script, then fails at the
      tracking insert with "recording migration N: ... out of range", so
      `RunMigrations` stops there on every run. */
  lemma IntegerColumnNeverRecordsGenerated(ts: string, name: string, up: string, down: string, d: Db, failing: set<nat>)
    requires Timestamp(ts)
    ensures var v := DigitsValue(ts);
      var r := ApplyUnitIn(Integer, d, failing, MigrationUnit(Migration(v, name, up, down)));
      && r.1.Failed? && r.0.tables == d.tables
      && (d.tables.migrationsTable && NoFaultIn(failing, d.calls, d.calls + 3) ==>
            r == (Db(d.tables, d.calls + 3), Failed(Recording(Version(v), OutOfRange(v)))))
  {
    var v := DigitsValue(ts);
    var u := MigrationUnit(Migration(v, name, up, down));
    var c := d.calls;
    if c !in failing {
      ExecScriptsLogs(failing, c + 1, d.tables, u.effect);
      var (r, c1) := ExecScripts(failing, c + 1, d.tables, u.effect);
      if r.Ok? {
        IntegerColumnRefusesGenerated(ts, name, r.value);
      }
    }
  }

  /** With a `bigint` column, as the model's store has it, a generated
      migration that is not yet recorded commits when no call fails, and
      its version is then recorded. */
  lemma GeneratedMigrationCommits(ts: string, name: string, up: string, down: string, d: Db, failing: set<nat>)
    requires Timestamp(ts)
    requires d.tables.migrationsTable
    requires Version(DigitsValue(ts)) !in Recorded(d.tables, SchemaMigrations)
    requires NoFaultIn(failing, d.calls, d.calls + 4)
    ensures var u := MigrationUnit(Migration(DigitsValue(ts), name, up, down));
      && ApplyUnit(d, failing, u).1 == Done
      && Version(DigitsValue(ts)) in Recorded(ApplyUnit(d, failing, u).0.tables, SchemaMigrations)
  {
    GeneratedVersion(ts, name, true);
    var u := MigrationUnit(Migration(DigitsValue(ts), name, up, down));
    ApplyUnitWithoutFaults(d, failing, u, SchemaMigrations);
    InstallRecords(d.tables, u, SchemaMigrations);
  }
}
