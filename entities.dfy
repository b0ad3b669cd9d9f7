/** The value objects of pkg/database/seeder/seeder.go and the one shape
    both pipelines reduce them to. */
module Entities {
  import opened Store

  datatype Migration = Migration(version: int, description: string, up: string, down: string)

  /** A seed. Its `Run` callback is modelled by the SQL scripts it executes
      on the transaction it is given, in order, stopping at the first
      error; a seed read from a file runs exactly that file's content. */
  datatype Seed = Seed(name: string, priority: int, run: seq<string>)

  /** What the engine applies: a tracking key, the effect scripts, and the
      insert that records the key. */
  datatype Unit = Unit(key: Key, effect: seq<string>, record: Stmt)

  function MigrationUnit(m: Migration): Unit
  {
    Unit(Version(m.version), [m.up], InsertMigration(m.version, m.description))
  }

  function SeedUnit(s: Seed): Unit
  {
    Unit(Name(s.name), s.run, InsertSeed(s.name))
  }

  function MigrationUnits(ms: seq<Migration>): (us: seq<Unit>)
    ensures |us| == |ms|
    ensures forall i :: 0 <= i < |ms| ==> us[i] == MigrationUnit(ms[i])
  {
    seq(|ms|, i requires 0 <= i < |ms| => MigrationUnit(ms[i]))
  }

  function SeedUnits(ss: seq<Seed>): (us: seq<Unit>)
    ensures |us| == |ss|
    ensures forall i :: 0 <= i < |ss| ==> us[i] == SeedUnit(ss[i])
  {
    seq(|ss|, i requires 0 <= i < |ss| => SeedUnit(ss[i]))
  }

  /** The unit records its own key into `table`. */
  predicate RecordsInto(u: Unit, table: Table)
  {
    (u.record.InsertMigration? || u.record.InsertSeed?) &&
    InsertTarget(u.record) == table && InsertKey(u.record) == u.key
  }

  /** Every unit of a pipeline records into the pipeline's table. */
  predicate AllRecordInto(us: seq<Unit>, table: Table)
  {
    forall u :: u in us ==> RecordsInto(u, table)
  }

  lemma MigrationUnitsRecord(ms: seq<Migration>)
    ensures AllRecordInto(MigrationUnits(ms), SchemaMigrations)
  {
  }

  lemma SeedUnitsRecord(ss: seq<Seed>)
    ensures AllRecordInto(SeedUnits(ss), SchemaSeeds)
  {
  }
}
