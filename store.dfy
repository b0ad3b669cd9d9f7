/** A deterministic stand-in for the `Pool`, `Tx` and `Rows` interfaces of
    pkg/database/seeder/seeder.go. The store keeps the two tracking tables
    and a log of the effect scripts that committed; SQL itself is opaque.
    Failures are injected by call number: every fallible call (`Begin`,
    `Exec`, `Commit`, `Query`, `Next`, `Scan`) takes the next number from a
    counter and fails when that number is in the pool's `failing` set. */
module Store {
  import opened Wrappers
  import opened Text

  datatype Table = SchemaMigrations | SchemaSeeds

  /** The primary key of a tracking row: a migration's version or a seed's name. */
  datatype Key = Version(version: int) | Name(name: string)

  /** The statements the engine issues. Only the tracking-table DDL and
      inserts are interpreted; an effect script is recorded as it is. */
  datatype Stmt =
    | CreateTable(table: Table)
    | InsertMigration(version: int, description: string)
    | InsertSeed(name: string)
    | Script(sql: string)

  datatype Failure =
    | Injected(call: nat)        // the failure oracle chose this call
    | UndefinedTable(table: Table)
    | DuplicateKey(key: Key)     // primary-key violation on a tracking table
    | OutOfRange(version: int)   // the version does not fit the version column
    | TxClosed                   // statement on a committed or rolled-back transaction

  datatype Result<T> = Ok(value: T) | Err(failure: Failure)

  datatype MigrationRow = MigrationRow(version: int, description: string)

  /** The committed contents of the store. `effects` is the log of effect
      scripts (Up scripts, seed scripts) in the order they committed. */
  datatype Tables = Tables(
    migrationsTable: bool,
    migrationRows: seq<MigrationRow>,
    seedsTable: bool,
    seedRows: seq<string>,
    effects: seq<string>)

  function HasTable(t: Tables, table: Table): bool
  {
    match table
    case SchemaMigrations => t.migrationsTable
    case SchemaSeeds => t.seedsTable
  }

  function MigrationKeys(rows: seq<MigrationRow>): (ks: seq<Key>)
    ensures |ks| == |rows|
    ensures forall i :: 0 <= i < |rows| ==> ks[i] == Version(rows[i].version)
  {
    if rows == [] then [] else MigrationKeys(rows[..|rows| - 1]) + [Version(rows[|rows| - 1].version)]
  }

  function SeedKeys(rows: seq<string>): (ks: seq<Key>)
    ensures |ks| == |rows|
    ensures forall i :: 0 <= i < |rows| ==> ks[i] == Name(rows[i])
  {
    if rows == [] then [] else SeedKeys(rows[..|rows| - 1]) + [Name(rows[|rows| - 1])]
  }

  /** The keys of a tracking table, in the order its rows were inserted. */
  function TableKeys(t: Tables, table: Table): seq<Key>
  {
    match table
    case SchemaMigrations => MigrationKeys(t.migrationRows)
    case SchemaSeeds => SeedKeys(t.seedRows)
  }

  /** The keys recorded as applied in a tracking table. */
  function Recorded(t: Tables, table: Table): set<Key>
  {
    set k | k in TableKeys(t, table)
  }

  predicate Distinct<T(==)>(s: seq<T>)
  {
    forall i, j :: 0 <= i < j < |s| ==> s[i] != s[j]
  }

  /** Each tracking table honours its primary key. */
  predicate WellFormed(t: Tables)
  {
    Distinct(TableKeys(t, SchemaMigrations)) && Distinct(TableKeys(t, SchemaSeeds))
  }

  /** The table an insert writes to and the key it records. */
  function InsertTarget(s: Stmt): Table
    requires s.InsertMigration? || s.InsertSeed?
  {
    if s.InsertMigration? then SchemaMigrations else SchemaSeeds
  }

  function InsertKey(s: Stmt): Key
    requires s.InsertMigration? || s.InsertSeed?
  {
    if s.InsertMigration? then Version(s.version) else Name(s.name)
  }

  /** The SQL type of `schema_migrations.version`: `integer` holds 32
      bits, `bigint` every Go `int`. */
  datatype VersionColumn = Integer | BigInt

  /** PostgreSQL stores `v` in the column; otherwise the insert fails with
      "integer out of range". */
  predicate Fits(col: VersionColumn, v: int)
  {
    match col
    case Integer => -0x8000_0000 <= v < 0x8000_0000
    case BigInt => MinInt64 <= v <= MaxInt64
  }

  /** What one statement does to the tables when the version column has
      type `col`: `CREATE TABLE IF NOT EXISTS` is idempotent, an insert
      needs its table, a value the column holds and a fresh key, and an
      effect script is appended to the log. */
  function ApplyIn(col: VersionColumn, t: Tables, s: Stmt): (r: Result<Tables>)
    ensures s.CreateTable? ==> r.Ok? && HasTable(r.value, s.table)
    ensures s.CreateTable? && HasTable(t, s.table) ==> r == Ok(t)
    ensures s.Script? ==> r.Ok? && r.value.effects == t.effects + [s.sql]
    ensures s.InsertMigration? && !Fits(col, s.version) ==> r.Err?
  {
    match s
    case CreateTable(SchemaMigrations) => Ok(t.(migrationsTable := true))
    case CreateTable(SchemaSeeds) => Ok(t.(seedsTable := true))
    case InsertMigration(v, d) =>
      if !t.migrationsTable then Err(UndefinedTable(SchemaMigrations))
      else if !Fits(col, v) then Err(OutOfRange(v))
      else if Version(v) in Recorded(t, SchemaMigrations) then Err(DuplicateKey(Version(v)))
      else Ok(t.(migrationRows := t.migrationRows + [MigrationRow(v, d)]))
    case InsertSeed(n) =>
      if !t.seedsTable then Err(UndefinedTable(SchemaSeeds))
      else if Name(n) in Recorded(t, SchemaSeeds) then Err(DuplicateKey(Name(n)))
      else Ok(t.(seedRows := t.seedRows + [n]))
    case Script(sql) => Ok(t.(effects := t.effects + [sql]))
  }

  /** The store the engine runs against: a `bigint` version column, so
      that every version the loader accepts can be recorded. The schema
      in `createMigrationsTable` declares `integer`; `ApplyIn(Integer, ..)`
      is that table as written. */
  function Apply(t: Tables, s: Stmt): (r: Result<Tables>)
    ensures s.CreateTable? ==> r.Ok? && HasTable(r.value, s.table)
    ensures s.CreateTable? && HasTable(t, s.table) ==> r == Ok(t)
    ensures s.Script? ==> r.Ok? && r.value.effects == t.effects + [s.sql]
  {
    ApplyIn(BigInt, t, s)
  }

  /** A successful insert adds exactly its key to its table and nothing
      else; it succeeds exactly when the table exists, the version is a
      64-bit value and the key is new, so the primary key stays unique. */
  lemma ApplyInsert(t: Tables, s: Stmt)
    requires s.InsertMigration? || s.InsertSeed?
    ensures Apply(t, s).Ok? <==>
      && HasTable(t, InsertTarget(s))
      && (s.InsertMigration? ==> MinInt64 <= s.version <= MaxInt64)
      && InsertKey(s) !in Recorded(t, InsertTarget(s))
    ensures Apply(t, s).Ok? ==>
      && TableKeys(Apply(t, s).value, InsertTarget(s)) == TableKeys(t, InsertTarget(s)) + [InsertKey(s)]
      && Recorded(Apply(t, s).value, InsertTarget(s)) == Recorded(t, InsertTarget(s)) + {InsertKey(s)}
      && Apply(t, s).value.effects == t.effects
      && (WellFormed(t) ==> WellFormed(Apply(t, s).value))
  {
    var r := Apply(t, s);
    if r.Ok? {
      var table := InsertTarget(s);
      var other := if table == SchemaMigrations then SchemaSeeds else SchemaMigrations;
      if s.InsertMigration? {
        assert r.value.migrationRows[..|r.value.migrationRows| - 1] == t.migrationRows;
      } else {
        assert r.value.seedRows[..|r.value.seedRows| - 1] == t.seedRows;
      }
      assert TableKeys(r.value, other) == TableKeys(t, other);
    }
  }

  /** Every statement but an insert leaves the tracking rows alone. */
  lemma ApplyKeepsRows(t: Tables, s: Stmt, table: Table)
    requires s.CreateTable? || s.Script?
    ensures Apply(t, s).Ok? && TableKeys(Apply(t, s).value, table) == TableKeys(t, table)
  {
  }

  datatype TxState = Open | Committed | RolledBack

  /** The observable state of the store: its tables and how many fallible
      calls it has answered. */
  datatype Db = Db(tables: Tables, calls: nat)

  /** The failure oracle at call `c`: what `Begin`, `Next` and `Scan` answer. */
  function Fault(failing: set<nat>, c: nat): Option<Failure>
  {
    if c in failing then Some(Injected(c)) else None
  }

  /** `Exec(s)` at call `c` on a transaction in state `st` whose own view of
      the tables is `view`, with version column `col`: the new view, or why
      it failed. */
  function ExecStepIn(col: VersionColumn, failing: set<nat>, c: nat, st: TxState, view: Tables, s: Stmt): Result<Tables>
  {
    if c in failing then Err(Injected(c))
    else if st != Open then Err(TxClosed)
    else ApplyIn(col, view, s)
  }

  /** `Exec(s)` on the model's store. */
  function ExecStep(failing: set<nat>, c: nat, st: TxState, view: Tables, s: Stmt): Result<Tables>
  {
    ExecStepIn(BigInt, failing, c, st, view, s)
  }

  /** `Commit` at call `c`. */
  function CommitStep(failing: set<nat>, c: nat, st: TxState): Option<Failure>
  {
    if c in failing then Some(Injected(c))
    else if st != Open then Some(TxClosed)
    else None
  }

  /** `Query` at call `c` on a tracking table. */
  function QueryStep(failing: set<nat>, c: nat, t: Tables, table: Table): Option<Failure>
  {
    if c in failing then Some(Injected(c))
    else if !HasTable(t, table) then Some(UndefinedTable(table))
    else None
  }

  /** The connection pool: the committed tables, the call counter and the
      failure oracle. */
  class Pool {
    var tables: Tables
    var calls: nat
    const failing: set<nat>

    constructor (tables: Tables, failing: set<nat>)
      ensures this.tables == tables && this.calls == 0 && this.failing == failing
    {
      this.tables := tables;
      this.calls := 0;
      this.failing := failing;
    }

    function State(): Db
      reads this
    {
      Db(tables, calls)
    }

    /** Opens a transaction that sees the committed tables. */
    method Begin() returns (tx: Tx?, err: Option<Failure>)
      modifies this`calls
      ensures calls == old(calls) + 1
      ensures err == Fault(failing, old(calls))
      ensures err.None? <==> tx != null
      ensures tx != null ==> fresh(tx) && tx.pool == this && tx.state == Open && tx.view == tables
    {
      err := Fault(failing, calls);
      calls := calls + 1;
      if err.None? {
        tx := new Tx(this);
      } else {
        tx := null;
      }
    }

    /** `SELECT version FROM schema_migrations` or `SELECT name FROM
        schema_seeds`: a cursor over the table's keys. */
    method Query(table: Table) returns (rows: Rows?, err: Option<Failure>)
      modifies this`calls
      ensures calls == old(calls) + 1
      ensures err == QueryStep(failing, old(calls), tables, table)
      ensures err.None? <==> rows != null
      ensures rows != null ==> fresh(rows) && rows.pool == this && rows.data == TableKeys(tables, table) && rows.pos == 0
    {
      err := QueryStep(failing, calls, tables, table);
      calls := calls + 1;
      if err.None? {
        rows := new Rows(this, TableKeys(tables, table));
      } else {
        rows := null;
      }
    }
  }

  /** A transaction: its state and its own view of the tables, which
      `Commit` installs in the pool. */
  class Tx {
    const pool: Pool
    var state: TxState
    var view: Tables

    constructor (pool: Pool)
      ensures this.pool == pool && state == Open && view == pool.tables
    {
      this.pool := pool;
      this.state := Open;
      this.view := pool.tables;
    }

    method Exec(s: Stmt) returns (err: Option<Failure>)
      modifies this`view, pool`calls
      ensures pool.calls == old(pool.calls) + 1
      ensures var r := ExecStep(pool.failing, old(pool.calls), state, old(view), s);
        if r.Ok? then err.None? && view == r.value else err == Some(r.failure) && view == old(view)
    {
      var r := ExecStep(pool.failing, pool.calls, state, view, s);
      pool.calls := pool.calls + 1;
      if r.Ok? {
        view := r.value;
        err := None;
      } else {
        err := Some(r.failure);
      }
    }

    /** Makes the transaction's writes the committed tables. */
    method Commit() returns (err: Option<Failure>)
      modifies this`state, pool
      ensures pool.calls == old(pool.calls) + 1
      ensures err == CommitStep(pool.failing, old(pool.calls), old(state))
      ensures err.None? ==> state == Committed && pool.tables == view
      ensures err.Some? ==> state == old(state) && pool.tables == old(pool.tables)
    {
      err := CommitStep(pool.failing, pool.calls, state);
      pool.calls := pool.calls + 1;
      if err.None? {
        pool.tables := view;
        state := Committed;
      }
    }

    /** Discards an open transaction; after `Commit` (or a first
        `Rollback`) it does nothing, so it can always be deferred. */
    method Rollback()
      modifies this`state
      ensures state == if old(state) == Open then RolledBack else old(state)
    {
      if state == Open {
        state := RolledBack;
      }
    }
  }

  /** A cursor over the keys a query returned. */
  class Rows {
    const pool: Pool
    const data: seq<Key>
    var pos: nat

    constructor (pool: Pool, data: seq<Key>)
      ensures this.pool == pool && this.data == data && pos == 0
    {
      this.pool := pool;
      this.data := data;
      this.pos := 0;
    }

    /** Advances to the next row: false once the rows are used up, and
        false too when reading the next row fails (a network error, a
        cancelled context). The `Rows` interface has no `Err`, so a caller
        cannot tell the two apart. */
    method Next() returns (more: bool)
      requires pos <= |data|
      modifies this`pos, pool`calls
      ensures pool.calls == old(pool.calls) + 1
      ensures more <==> old(pos) < |data| && Fault(pool.failing, old(pool.calls)).None?
      ensures pos == if more then old(pos) + 1 else old(pos)
    {
      more := pos < |data| && Fault(pool.failing, pool.calls).None?;
      pool.calls := pool.calls + 1;
      if more {
        pos := pos + 1;
      }
    }

    /** Reads the current row, which `Next` must have produced. */
    method Scan() returns (k: Key, err: Option<Failure>)
      requires 0 < pos <= |data|
      modifies pool`calls
      ensures pool.calls == old(pool.calls) + 1
      ensures err == Fault(pool.failing, old(pool.calls))
      ensures k == data[pos - 1]
    {
      err := Fault(pool.failing, pool.calls);
      pool.calls := pool.calls + 1;
      k := data[pos - 1];
    }
  }
}
