/** The `Manager` of pkg/database/seeder/seeder.go: two registration lists
    and the two runs over them, each step proved to do exactly what the
    functions of module `Runs` say. */
module Seeder {
  import opened Wrappers
  import opened Store
  import opened Entities
  import opened Runs
  import opened Sorting

  function VersionOf(m: Migration): int { m.version }

  function PriorityOf(s: Seed): int { s.priority }

  /** A seed's `Run` on the transaction it is given: its scripts in order,
      returning the first error. */
  method RunScripts(tx: Tx, scripts: seq<string>) returns (err: Option<Failure>)
    requires tx.state == Open
    modifies tx`view, tx.pool`calls
    ensures ExecScripts(tx.pool.failing, old(tx.pool.calls), old(tx.view), scripts)
         == (if err.None? then Ok(tx.view) else Err(err.value), tx.pool.calls)
  {
    ghost var c0, v0 := tx.pool.calls, tx.view;
    var i := 0;
    while i < |scripts|
      invariant 0 <= i <= |scripts|
      invariant ExecScripts(tx.pool.failing, c0, v0, scripts[..i]) == (Ok(tx.view), tx.pool.calls)
    {
      err := tx.Exec(Script(scripts[i]));
      assert scripts[..i + 1][..i] == scripts[..i];
      if err.Some? {
        ExecScriptsStop(tx.pool.failing, c0, v0, scripts[..i + 1], scripts[i + 1..]);
        assert scripts[..i + 1] + scripts[i + 1..] == scripts;
        return;
      }
      i := i + 1;
    }
    assert scripts[..i] == scripts;
    err := None;
  }

  /** Once a script has failed, no later script runs. */
  lemma {:induction false} ExecScriptsStop(failing: set<nat>, c: nat, view: Tables, ss: seq<string>, rest: seq<string>)
    requires ExecScripts(failing, c, view, ss).0.Err?
    ensures ExecScripts(failing, c, view, ss + rest) == ExecScripts(failing, c, view, ss)
  {
    if rest == [] {
      assert ss + rest == ss;
    } else {
      var n := |rest| - 1;
      ExecScriptsStop(failing, c, view, ss, rest[..n]);
      assert (ss + rest)[..|ss + rest| - 1] == ss + rest[..n];
    }
  }

  class Manager {
    const pool: Pool
    var migrations: seq<Migration>
    var seeds: seq<Seed>

    /** `NewManager`. */
    constructor (pool: Pool)
      ensures this.pool == pool && migrations == [] && seeds == []
    {
      this.pool := pool;
      migrations := [];
      seeds := [];
    }

    method AddMigration(mg: Migration)
      modifies this`migrations
      ensures migrations == old(migrations) + [mg]
    {
      migrations := migrations + [mg];
    }

    method AddSeed(seed: Seed)
      modifies this`seeds
      ensures seeds == old(seeds) + [seed]
    {
      seeds := seeds + [seed];
    }

    /** `createMigrationsTable` / `createSeedsTable`. */
    method CreateTrackingTable(table: Table) returns (o: Outcome)
      modifies pool
      ensures (pool.State(), o) == Bootstrap(old(pool.State()), pool.failing, table)
    {
      var tx, err := pool.Begin();
      if err.Some? {
        return Failed(StoreError(err.value));
      }
      var e := tx.Exec(CreateTable(table));
      if e.Some? {
        tx.Rollback();
        return Failed(StoreError(e.value));
      }
      e := tx.Commit();
      tx.Rollback();
      if e.Some? {
        return Failed(StoreError(e.value));
      }
      return Done;
    }

    /** `getAppliedMigrations` / `getAppliedSeeds`: the keys in the
        tracking table, read row by row. */
    method GetApplied(table: Table) returns (applied: set<Key>, err: Option<Failure>)
      modifies pool`calls
      ensures ReadApplied(old(pool.State()), pool.failing, table)
           == (pool.calls, if err.None? then Ok(applied) else Err(err.value))
    {
      var rows, qerr := pool.Query(table);
      if qerr.Some? {
        return {}, qerr;
      }
      applied, err := ScanAll(rows);
    }

    /** The `rows.Next()` / `rows.Scan` loop: it stops at the first scan
        error, and quietly when `Next` answers false. */
    method ScanAll(rows: Rows) returns (applied: set<Key>, err: Option<Failure>)
      requires rows.pool == pool && rows.pos == 0
      modifies rows`pos, pool`calls
      ensures ScanKeys(pool.failing, old(pool.calls), rows.data)
           == (pool.calls, if err.None? then Ok(applied) else Err(err.value))
    {
      ghost var c0 := pool.calls;
      applied := {};
      while true
        invariant rows.pos <= |rows.data|
        invariant ScanRows(pool.failing, c0, rows.data[..rows.pos]) == (pool.calls, Reading(applied))
        decreases |rows.data| - rows.pos
      {
        var more := rows.Next();
        if !more {
          if rows.pos < |rows.data| {
            NextFailed(pool.failing, c0, rows.data, rows.pos);
          } else {
            assert rows.data[..rows.pos] == rows.data;
          }
          return applied, None;
        }
        ghost var before := rows.data[..rows.pos - 1];
        var k, serr := rows.Scan();
        ScanRowsSnoc(pool.failing, c0, before, k);
        assert before + [k] == rows.data[..rows.pos];
        if serr.Some? {
          ScanRowsStop(pool.failing, c0, rows.data[..rows.pos], rows.data[rows.pos..]);
          assert rows.data[..rows.pos] + rows.data[rows.pos..] == rows.data;
          return {}, serr;
        }
        applied := applied + {k};
      }
    }

    /** `runMigration`: the Up script, then the tracking insert, then
        `Commit`, with `Rollback` deferred on every exit. */
    method RunMigration(mg: Migration) returns (o: Outcome)
      modifies pool
      ensures (pool.State(), o) == ApplyUnit(old(pool.State()), pool.failing, MigrationUnit(mg))
    {
      ghost var d := pool.State();
      var tx, err := pool.Begin();
      if err.Some? {
        return Failed(Beginning(err.value));
      }
      var e := tx.Exec(Script(mg.up));
      assert [mg.up][..0] == [];
      assert ExecScripts(pool.failing, d.calls + 1, d.tables, [mg.up])
          == (if e.None? then Ok(tx.view) else Err(e.value), pool.calls);
      if e.Some? {
        tx.Rollback();
        return Failed(Executing(Version(mg.version), e.value));
      }
      e := tx.Exec(InsertMigration(mg.version, mg.description));
      if e.Some? {
        tx.Rollback();
        return Failed(Recording(Version(mg.version), e.value));
      }
      e := tx.Commit();
      tx.Rollback();
      if e.Some? {
        return Failed(StoreError(e.value));
      }
      return Done;
    }

    /** `runSeed`: the seed's `Run`, then the tracking insert, then
        `Commit`, with `Rollback` deferred on every exit. */
    method RunSeed(seed: Seed) returns (o: Outcome)
      modifies pool
      ensures (pool.State(), o) == ApplyUnit(old(pool.State()), pool.failing, SeedUnit(seed))
    {
      var tx, err := pool.Begin();
      if err.Some? {
        return Failed(Beginning(err.value));
      }
      var e := RunScripts(tx, seed.run);
      if e.Some? {
        tx.Rollback();
        return Failed(Executing(Name(seed.name), e.value));
      }
      e := tx.Exec(InsertSeed(seed.name));
      if e.Some? {
        tx.Rollback();
        return Failed(Recording(Name(seed.name), e.value));
      }
      e := tx.Commit();
      tx.Rollback();
      if e.Some? {
        return Failed(StoreError(e.value));
      }
      return Done;
    }

    /** `RunMigrations`: bootstrap the tracking table, sort by version,
        read the applied versions, then apply the others in order and stop
        at the first error. The list is sorted only once the table exists. */
    method RunMigrations() returns (o: Outcome)
      modifies this`migrations, pool
      ensures Bootstrap(old(pool.State()), pool.failing, SchemaMigrations).1.Failed? ==> migrations == old(migrations)
      ensures Bootstrap(old(pool.State()), pool.failing, SchemaMigrations).1.Done? ==>
        SortedBy(migrations, VersionOf) && multiset(migrations) == multiset(old(migrations))
      ensures (pool.State(), o) == RunPipeline(old(pool.State()), pool.failing, SchemaMigrations, MigrationUnits(migrations))
    {
      o := CreateTrackingTable(SchemaMigrations);
      if o.Failed? {
        return;
      }
      SortBySorted(migrations, VersionOf);
      migrations := SortBy(migrations, VersionOf);
      var applied, err := GetApplied(SchemaMigrations);
      if err.Some? {
        return Failed(StoreError(err.value));
      }
      o := ApplyMigrations(migrations, applied);
    }

    /** The loop of `RunMigrations` over the sorted list. */
    method ApplyMigrations(ms: seq<Migration>, applied: set<Key>) returns (o: Outcome)
      modifies pool
      ensures (pool.State(), o) == RunUnits(old(pool.State()), pool.failing, MigrationUnits(ms), applied)
    {
      ghost var d := pool.State();
      ghost var us := MigrationUnits(ms);
      var i := 0;
      while i < |ms|
        invariant 0 <= i <= |ms|
        invariant (pool.State(), Done) == RunUnits(d, pool.failing, us[..i], applied)
      {
        var mg := ms[i];
        assert us[..i + 1][..i] == us[..i];
        if Version(mg.version) !in applied {
          o := RunMigration(mg);
          if o.Failed? {
            FailFast(d, pool.failing, us[..i + 1], us[i + 1..], applied);
            assert us[..i + 1] + us[i + 1..] == us;
            return;
          }
        }
        i := i + 1;
      }
      assert us[..i] == us;
      o := Done;
    }

    /** `RunSeeds`: the same template, by priority, over `schema_seeds`. */
    method RunSeeds() returns (o: Outcome)
      modifies this`seeds, pool
      ensures Bootstrap(old(pool.State()), pool.failing, SchemaSeeds).1.Failed? ==> seeds == old(seeds)
      ensures Bootstrap(old(pool.State()), pool.failing, SchemaSeeds).1.Done? ==>
        SortedBy(seeds, PriorityOf) && multiset(seeds) == multiset(old(seeds))
      ensures (pool.State(), o) == RunPipeline(old(pool.State()), pool.failing, SchemaSeeds, SeedUnits(seeds))
    {
      o := CreateTrackingTable(SchemaSeeds);
      if o.Failed? {
        return;
      }
      SortBySorted(seeds, PriorityOf);
      seeds := SortBy(seeds, PriorityOf);
      var applied, err := GetApplied(SchemaSeeds);
      if err.Some? {
        return Failed(StoreError(err.value));
      }
      o := ApplySeeds(seeds, applied);
    }

    /** The loop of `RunSeeds` over the sorted list. */
    method ApplySeeds(ss: seq<Seed>, applied: set<Key>) returns (o: Outcome)
      modifies pool
      ensures (pool.State(), o) == RunUnits(old(pool.State()), pool.failing, SeedUnits(ss), applied)
    {
      ghost var d := pool.State();
      ghost var us := SeedUnits(ss);
      var i := 0;
      while i < |ss|
        invariant 0 <= i <= |ss|
        invariant (pool.State(), Done) == RunUnits(d, pool.failing, us[..i], applied)
      {
        var seed := ss[i];
        assert us[..i + 1][..i] == us[..i];
        if Name(seed.name) !in applied {
          o := RunSeed(seed);
          if o.Failed? {
            FailFast(d, pool.failing, us[..i + 1], us[i + 1..], applied);
            assert us[..i + 1] + us[i + 1..] == us;
            return;
          }
        }
        i := i + 1;
      }
      assert us[..i] == us;
      o := Done;
    }
  }
}
