/** What one `RunMigrations` or `RunSeeds` call does to the store, as
    functions of the store's state before the call, the failure oracle
    and the (already sorted) list of units; and the guarantees of the
    engine, proved about those functions. */
module Runs {
  import opened Wrappers
  import opened Store
  import opened Entities
  import Text

  /** The errors a run returns, with the context the source wraps them in. */
  datatype Error =
    | StoreError(cause: Failure)            // returned unwrapped
    | Beginning(cause: Failure)             // "beginning transaction: ..."
    | Executing(key: Key, cause: Failure)   // "executing migration N: ..." / "executing seed S: ..."
    | Recording(key: Key, cause: Failure)   // "recording migration N: ..." / "recording seed S: ..."
  {
    /** The error names the unit it is about. */
    predicate NamesUnit() { Executing? || Recording? }
  }

  datatype Outcome = Done | Failed(error: Error)

  /** The effect scripts run one after another on an open transaction that
      starts at call `c` with view `view`: the final view (or the first
      failure) and the next call number. */
  function ExecScripts(failing: set<nat>, c: nat, view: Tables, ss: seq<string>): (Result<Tables>, nat)
  {
    if ss == [] then (Ok(view), c)
    else
      var (r, c') := ExecScripts(failing, c, view, ss[..|ss| - 1]);
      if r.Err? then (r, c')
      else (ExecStep(failing, c', Open, r.value, Script(ss[|ss| - 1])), c' + 1)
  }

  /** The effect scripts only ever append themselves to the effect log,
      and fail only where the oracle says. */
  lemma {:induction false} ExecScriptsLogs(failing: set<nat>, c: nat, view: Tables, ss: seq<string>)
    ensures c <= ExecScripts(failing, c, view, ss).1 <= c + |ss|
    ensures ExecScripts(failing, c, view, ss).0.Ok? ==>
      && ExecScripts(failing, c, view, ss).0.value == view.(effects := view.effects + ss)
      && ExecScripts(failing, c, view, ss).1 == c + |ss|
    ensures ExecScripts(failing, c, view, ss).0.Ok? <==> forall i :: c <= i < c + |ss| ==> i !in failing
  {
    if ss != [] {
      var n := |ss| - 1;
      var init := ss[..n];
      ExecScriptsLogs(failing, c, view, init);
      var (r, c') := ExecScripts(failing, c, view, init);
      if r.Err? {
        var i :| c <= i < c + n && i in failing;
      } else {
        assert view.effects + init + [ss[n]] == view.effects + ss by {
          assert init + [ss[n]] == ss;
        }
      }
    }
  }

  /** Scripts none of whose calls fails all run and are logged. */
  lemma ExecScriptsWithoutFaults(failing: set<nat>, c: nat, view: Tables, ss: seq<string>)
    requires NoFaultIn(failing, c, c + |ss|)
    ensures ExecScripts(failing, c, view, ss) == (Ok(view.(effects := view.effects + ss)), c + |ss|)
  {
    ExecScriptsLogs(failing, c, view, ss);
  }

  /** The intended effect of applying a unit: its scripts are logged and
      its key is recorded, together. */
  function Install(t: Tables, u: Unit): Tables
  {
    var t' := t.(effects := t.effects + u.effect);
    match u.record
    case InsertMigration(v, d) => t'.(migrationRows := t'.migrationRows + [MigrationRow(v, d)])
    case InsertSeed(n) => t'.(seedRows := t'.seedRows + [n])
    case _ => t'
  }

  function InstallAll(t: Tables, us: seq<Unit>): Tables
  {
    if us == [] then t else Install(InstallAll(t, us[..|us| - 1]), us[|us| - 1])
  }

  /** `runMigration` / `runSeed` on the model's store. */
  function ApplyUnit(d: Db, failing: set<nat>, u: Unit): (Db, Outcome)
  {
    ApplyUnitIn(BigInt, d, failing, u)
  }

  /** `runMigration` / `runSeed` with version column `col`: begin, run the
      effect, insert the tracking row, commit; the deferred rollback
      discards everything on any other exit. */
  function ApplyUnitIn(col: VersionColumn, d: Db, failing: set<nat>, u: Unit): (Db, Outcome)
  {
    var c := d.calls;
    if c in failing then (Db(d.tables, c + 1), Failed(Beginning(Injected(c))))
    else
      var (r, c1) := ExecScripts(failing, c + 1, d.tables, u.effect);
      if r.Err? then (Db(d.tables, c1), Failed(Executing(u.key, r.failure)))
      else
        var r2 := ExecStepIn(col, failing, c1, Open, r.value, u.record);
        if r2.Err? then (Db(d.tables, c1 + 1), Failed(Recording(u.key, r2.failure)))
        else match CommitStep(failing, c1 + 1, Open)
          case Some(f) => (Db(d.tables, c1 + 2), Failed(StoreError(f)))
          case None => (Db(r2.value, c1 + 2), Done)
  }

  /** Atomicity: a unit's effect commits exactly together with its
      tracking row. On success both are added; on every failure the tables
      are untouched. */
  lemma ApplyUnitAtomic(d: Db, failing: set<nat>, u: Unit, table: Table)
    requires RecordsInto(u, table)
    ensures ApplyUnit(d, failing, u).0.calls > d.calls
    ensures ApplyUnit(d, failing, u).1.Done? ==>
      && ApplyUnit(d, failing, u).0.tables == Install(d.tables, u)
      && u.key !in Recorded(d.tables, table)
    ensures ApplyUnit(d, failing, u).1.Failed? ==> ApplyUnit(d, failing, u).0.tables == d.tables
    ensures ApplyUnit(d, failing, u).1.Failed? && ApplyUnit(d, failing, u).1.error.NamesUnit() ==>
      ApplyUnit(d, failing, u).1.error.key == u.key
  {
    ApplyUnitCommits(d, failing, u, table);
    ApplyUnitFails(d, failing, u);
  }

  lemma ApplyUnitCommits(d: Db, failing: set<nat>, u: Unit, table: Table)
    requires RecordsInto(u, table)
    ensures ApplyUnit(d, failing, u).1.Done? ==>
      && ApplyUnit(d, failing, u).0.tables == Install(d.tables, u)
      && u.key !in Recorded(d.tables, table)
  {
    var c := d.calls;
    if c !in failing {
      ExecScriptsLogs(failing, c + 1, d.tables, u.effect);
      var (r, c1) := ExecScripts(failing, c + 1, d.tables, u.effect);
      if r.Ok? {
        ApplyInsert(r.value, u.record);
        assert TableKeys(r.value, table) == TableKeys(d.tables, table);
      }
    }
  }

  lemma ApplyUnitFails(d: Db, failing: set<nat>, u: Unit)
    ensures ApplyUnit(d, failing, u).0.calls > d.calls
    ensures ApplyUnit(d, failing, u).1.Failed? ==> ApplyUnit(d, failing, u).0.tables == d.tables
    ensures ApplyUnit(d, failing, u).1.Failed? && ApplyUnit(d, failing, u).1.error.NamesUnit() ==>
      ApplyUnit(d, failing, u).1.error.key == u.key
  {
    var c := d.calls;
    if c !in failing {
      ExecScriptsLogs(failing, c + 1, d.tables, u.effect);
    }
  }

  /** Progress: a unit whose table exists, whose key is new and whose
      version is a 64-bit value commits when none of its calls fails. */
  lemma ApplyUnitWithoutFaults(d: Db, failing: set<nat>, u: Unit, table: Table)
    requires RecordsInto(u, table) && HasTable(d.tables, table) && u.key !in Recorded(d.tables, table)
    requires u.record.InsertMigration? ==> Text.MinInt64 <= u.record.version <= Text.MaxInt64
    requires NoFaultIn(failing, d.calls, d.calls + |u.effect| + 3)
    ensures ApplyUnit(d, failing, u) == (Db(Install(d.tables, u), d.calls + |u.effect| + 3), Done)
  {
    var c := d.calls;
    var c1 := c + 1 + |u.effect|;
    assert c !in failing && c1 !in failing && c1 + 1 !in failing;
    ExecScriptsWithoutFaults(failing, c + 1, d.tables, u.effect);
    InsertAfterScripts(d.tables, u, table);
  }

  /** The tracking insert after the unit's scripts gives the unit's
      intended effect. */
  lemma InsertAfterScripts(t: Tables, u: Unit, table: Table)
    requires RecordsInto(u, table) && HasTable(t, table) && u.key !in Recorded(t, table)
    requires u.record.InsertMigration? ==> Text.MinInt64 <= u.record.version <= Text.MaxInt64
    ensures Apply(t.(effects := t.effects + u.effect), u.record) == Ok(Install(t, u))
  {
    var view := t.(effects := t.effects + u.effect);
    assert TableKeys(view, table) == TableKeys(t, table);
    ApplyInsert(view, u.record);
  }

  /** The primary key as the last line of defence: a unit whose key is
      already recorded can never commit, and leaves the tables as they were. */
  lemma DuplicateRecordRejected(d: Db, failing: set<nat>, u: Unit, table: Table)
    requires RecordsInto(u, table) && u.key in Recorded(d.tables, table)
    ensures ApplyUnit(d, failing, u).1.Failed?
    ensures ApplyUnit(d, failing, u).0.tables == d.tables
  {
    ApplyUnitAtomic(d, failing, u, table);
  }

  /** The units of `us` whose key is not in `applied`, in order. */
  function Pending(us: seq<Unit>, applied: set<Key>): (ps: seq<Unit>)
    ensures |ps| <= |us|
  {
    if us == [] then []
    else
      var last := us[|us| - 1];
      Pending(us[..|us| - 1], applied) + (if last.key in applied then [] else [last])
  }

  /** The loop of `RunMigrations` / `RunSeeds` over the sorted units:
      skip a unit whose key is in `applied`, apply the others in order,
      and stop at the first error. */
  function RunUnits(d: Db, failing: set<nat>, us: seq<Unit>, applied: set<Key>): (Db, Outcome)
  {
    if us == [] then (d, Done)
    else NextUnit(RunUnits(d, failing, us[..|us| - 1], applied), failing, us[|us| - 1], applied)
  }

  /** One turn of the loop, after the units before `u` gave `prev`. */
  function NextUnit(prev: (Db, Outcome), failing: set<nat>, u: Unit, applied: set<Key>): (Db, Outcome)
  {
    if prev.1.Failed? || u.key in applied then prev else ApplyUnit(prev.0, failing, u)
  }

  /** Skip-if-applied: a unit whose key was read as applied plays no part
      in the run; the run is the run over the pending units alone. */
  lemma {:induction false} SkipApplied(d: Db, failing: set<nat>, us: seq<Unit>, applied: set<Key>)
    ensures RunUnits(d, failing, us, applied) == RunUnits(d, failing, Pending(us, applied), applied)
  {
    if us != [] {
      var n := |us| - 1;
      var last := us[n];
      SkipApplied(d, failing, us[..n], applied);
      var ps := Pending(us, applied);
      var ps' := Pending(us[..n], applied);
      var prev := RunUnits(d, failing, us[..n], applied);
      assert RunUnits(d, failing, us, applied) == NextUnit(prev, failing, last, applied);
      if last.key in applied {
        assert ps == ps';
      } else {
        assert ps == ps' + [last];
        assert ps[..|ps| - 1] == ps';
        assert RunUnits(d, failing, ps, applied) == NextUnit(RunUnits(d, failing, ps', applied), failing, last, applied);
      }
    }
  }

  /** Fail-fast: once a run has failed, no later unit is attempted, so
      appending any units after the failing one changes nothing (no call,
      no write). */
  lemma {:induction false} FailFast(d: Db, failing: set<nat>, us: seq<Unit>, rest: seq<Unit>, applied: set<Key>)
    requires RunUnits(d, failing, us, applied).1.Failed?
    ensures RunUnits(d, failing, us + rest, applied) == RunUnits(d, failing, us, applied)
  {
    if rest == [] {
      assert us + rest == us;
    } else {
      var n := |rest| - 1;
      FailFast(d, failing, us, rest[..n], applied);
      assert (us + rest)[..|us + rest| - 1] == us + rest[..n];
    }
  }

  /** Order and atomicity of a whole run: the run commits the first `k`
      pending units, in list order, each with its tracking row; it
      succeeds exactly when it commits them all, and a failure is the
      attempt on pending unit `k`. */
  lemma {:induction false} RunUnitsCommitsPrefix(d: Db, failing: set<nat>, us: seq<Unit>, applied: set<Key>, table: Table)
    returns (k: nat)
    requires AllRecordInto(us, table)
    ensures k <= |Pending(us, applied)|
    ensures RunUnits(d, failing, us, applied).0.tables == InstallAll(d.tables, Pending(us, applied)[..k])
    ensures RunUnits(d, failing, us, applied).1.Done? <==> k == |Pending(us, applied)|
    ensures RunUnits(d, failing, us, applied).0.calls >= d.calls
    ensures RunUnits(d, failing, us, applied).1.Failed? && RunUnits(d, failing, us, applied).1.error.NamesUnit() ==>
      RunUnits(d, failing, us, applied).1.error.key == Pending(us, applied)[k].key
  {
    if us == [] {
      k := 0;
    } else {
      var n := |us| - 1;
      var last := us[n];
      var pre := us[..n];
      var ps' := Pending(pre, applied);
      var ps := Pending(us, applied);
      k := RunUnitsCommitsPrefix(d, failing, pre, applied, table);
      var prev := RunUnits(d, failing, pre, applied);
      assert RunUnits(d, failing, us, applied) == NextUnit(prev, failing, last, applied);
      if last.key in applied {
        assert ps == ps';
      } else {
        assert ps == ps' + [last];
        assert ps[..k] == ps'[..k];
        if prev.1.Done? {
          assert RecordsInto(last, table);
          ApplyUnitAtomic(prev.0, failing, last, table);
          if ApplyUnit(prev.0, failing, last).1.Done? {
            assert ps[..k + 1] == ps'[..k] + [last];
            k := k + 1;
          } else {
            assert ps[k] == last;
          }
        } else {
          assert ps[k] == ps'[k];
        }
      }
    }
  }

  /** The keys of a list of units. */
  function KeysOf(us: seq<Unit>): set<Key>
  {
    set u | u in us :: u.key
  }

  lemma KeysOfSnoc(us: seq<Unit>, u: Unit)
    ensures KeysOf(us + [u]) == KeysOf(us) + {u.key}
  {
    assert forall v :: v in us + [u] <==> v in us || v == u;
  }

  lemma SetOfSnoc(ks: seq<Key>, k: Key)
    ensures (set x | x in ks + [k]) == (set x | x in ks) + {k}
  {
    assert forall x :: x in ks + [k] <==> x in ks || x == k;
  }

  /** Installing a unit records its key in its table and nothing else. */
  lemma InstallRecords(t: Tables, u: Unit, table: Table)
    requires RecordsInto(u, table)
    ensures TableKeys(Install(t, u), table) == TableKeys(t, table) + [u.key]
    ensures Recorded(Install(t, u), table) == Recorded(t, table) + {u.key}
    ensures HasTable(Install(t, u), table) == HasTable(t, table)
  {
    var t1 := Install(t, u);
    if table == SchemaMigrations {
      assert t1.migrationRows[..|t1.migrationRows| - 1] == t.migrationRows;
    } else {
      assert t1.seedRows[..|t1.seedRows| - 1] == t.seedRows;
    }
    SetOfSnoc(TableKeys(t, table), u.key);
  }

  lemma {:induction false} InstallAllRecords(t: Tables, us: seq<Unit>, table: Table)
    requires AllRecordInto(us, table)
    ensures Recorded(InstallAll(t, us), table) == Recorded(t, table) + KeysOf(us)
    ensures HasTable(InstallAll(t, us), table) == HasTable(t, table)
  {
    if us != [] {
      var n := |us| - 1;
      var init, u := us[..n], us[n];
      assert us == init + [u];
      assert AllRecordInto(init, table);
      InstallAllRecords(t, init, table);
      InstallRecords(InstallAll(t, init), u, table);
      KeysOfSnoc(init, u);
    }
  }

  /** `createMigrationsTable` / `createSeedsTable`: `CREATE TABLE IF NOT
      EXISTS` in a transaction of its own. Either the table now exists and
      nothing else changed, or an error is returned and nothing changed. */
  function Bootstrap(d: Db, failing: set<nat>, table: Table): (r: (Db, Outcome))
    ensures r.0.calls > d.calls
    ensures r.1.Done? ==> HasTable(r.0.tables, table) && r.0.tables == Apply(d.tables, CreateTable(table)).value
    ensures r.1.Failed? ==> r.0.tables == d.tables && r.1.error.StoreError?
  {
    var c := d.calls;
    if c in failing then (Db(d.tables, c + 1), Failed(StoreError(Injected(c))))
    else
      var r := ExecStep(failing, c + 1, Open, d.tables, CreateTable(table));
      if r.Err? then (Db(d.tables, c + 2), Failed(StoreError(r.failure)))
      else match CommitStep(failing, c + 2, Open)
        case Some(f) => (Db(d.tables, c + 3), Failed(StoreError(f)))
        case None => (Db(r.value, c + 3), Done)
  }

  /** Where the `rows.Next()` / `rows.Scan()` loop of
      `getAppliedMigrations` / `getAppliedSeeds` stands: still reading,
      with the keys read so far, or ended, with what the call returns. */
  datatype Scan = Reading(read: set<Key>) | Ended(result: Result<set<Key>>)

  /** No call in `[lo, hi)` fails. */
  predicate NoFaultIn(failing: set<nat>, lo: nat, hi: nat)
  {
    forall i :: lo <= i < hi ==> i !in failing
  }

  /** The loop over the rows `keys`, from call `c` on. Each row costs a
      `Next` and a `Scan` call. A failing `Next` ends the loop quietly with
      the keys read so far; a failing `Scan` is returned. */
  function ScanRows(failing: set<nat>, c: nat, keys: seq<Key>): (nat, Scan)
  {
    if keys == [] then (c, Reading({}))
    else ScanStep(failing, ScanRows(failing, c, keys[..|keys| - 1]), keys[|keys| - 1])
  }

  /** One turn of the loop, on row `k`, after the rows before it gave
      `prev`: its `Next` is call `prev.0` and its `Scan` the call after. */
  function ScanStep(failing: set<nat>, prev: (nat, Scan), k: Key): (nat, Scan)
  {
    if prev.1.Ended? then prev
    else if prev.0 in failing then (prev.0 + 1, Ended(Ok(prev.1.read)))
    else if prev.0 + 1 in failing then (prev.0 + 2, Ended(Err(Injected(prev.0 + 1))))
    else (prev.0 + 2, Reading(prev.1.read + {k}))
  }

  /** The whole loop: after the last row, one more `Next` answers false. */
  function ScanKeys(failing: set<nat>, c: nat, keys: seq<Key>): (nat, Result<set<Key>>)
  {
    var (c', s) := ScanRows(failing, c, keys);
    if s.Ended? then (c', s.result) else (c' + 1, Ok(s.read))
  }

  /** A loop still reading has read every row so far; one that ended
      quietly has read only some of them; without faults it never ends
      early. */
  lemma {:induction false} ScanRowsReads(failing: set<nat>, c: nat, keys: seq<Key>)
    ensures c <= ScanRows(failing, c, keys).0 <= c + 2 * |keys|
    ensures ScanRows(failing, c, keys).1.Reading? ==>
      && ScanRows(failing, c, keys).0 == c + 2 * |keys|
      && ScanRows(failing, c, keys).1.read == set k | k in keys
    ensures ScanRows(failing, c, keys).1.Ended? && ScanRows(failing, c, keys).1.result.Ok? ==>
      ScanRows(failing, c, keys).1.result.value <= set k | k in keys
    ensures NoFaultIn(failing, c, c + 2 * |keys|) ==> ScanRows(failing, c, keys).1.Reading?
  {
    if keys != [] {
      var n := |keys| - 1;
      ScanRowsReads(failing, c, keys[..n]);
      assert keys == keys[..n] + [keys[n]];
      assert (set k | k in keys) == (set k | k in keys[..n]) + {keys[n]};
    }
  }

  /** What a scan returns: never a key that is not a row, and every row
      when no call fails. */
  lemma ScanKeysReads(failing: set<nat>, c: nat, keys: seq<Key>)
    ensures ScanKeys(failing, c, keys).0 > c
    ensures ScanKeys(failing, c, keys).1.Ok? ==> ScanKeys(failing, c, keys).1.value <= set k | k in keys
    ensures NoFaultIn(failing, c, c + 2 * |keys|) ==> ScanKeys(failing, c, keys).1 == Ok(set k | k in keys)
  {
    ScanRowsReads(failing, c, keys);
    if keys != [] && ScanRows(failing, c, keys).1.Ended? {
      ScanRowsEndedAfterStart(failing, c, keys);
    }
  }

  /** A loop that ended has made at least one call. */
  lemma {:induction false} ScanRowsEndedAfterStart(failing: set<nat>, c: nat, keys: seq<Key>)
    requires ScanRows(failing, c, keys).1.Ended?
    ensures ScanRows(failing, c, keys).0 > c
  {
    var n := |keys| - 1;
    ScanRowsReads(failing, c, keys[..n]);
    if ScanRows(failing, c, keys[..n]).1.Ended? {
      ScanRowsEndedAfterStart(failing, c, keys[..n]);
    }
  }

  /** One more row: a fault on its `Next` ends the loop with the keys read
      so far, a fault on its `Scan` ends it with that error, and otherwise
      the row's key joins the set. */
  lemma ScanRowsSnoc(failing: set<nat>, c: nat, keys: seq<Key>, k: Key)
    ensures ScanRows(failing, c, keys + [k]) == ScanStep(failing, ScanRows(failing, c, keys), k)
  {
    assert (keys + [k])[..|keys|] == keys;
  }

  /** A failing `Next` before row `pos` ends the whole loop there, with
      the keys read so far. */
  lemma NextFailed(failing: set<nat>, c: nat, keys: seq<Key>, pos: nat)
    requires pos < |keys|
    requires ScanRows(failing, c, keys[..pos]).1.Reading?
    requires ScanRows(failing, c, keys[..pos]).0 in failing
    ensures var (c', s) := ScanRows(failing, c, keys[..pos]);
      ScanKeys(failing, c, keys) == (c' + 1, Ok(s.read))
  {
    ScanRowsSnoc(failing, c, keys[..pos], keys[pos]);
    assert keys[..pos] + [keys[pos]] == keys[..pos + 1];
    ScanRowsStop(failing, c, keys[..pos + 1], keys[pos + 1..]);
    assert keys[..pos + 1] + keys[pos + 1..] == keys;
  }

  /** Once the loop has ended, later rows are not read. */
  lemma {:induction false} ScanRowsStop(failing: set<nat>, c: nat, keys: seq<Key>, rest: seq<Key>)
    requires ScanRows(failing, c, keys).1.Ended?
    ensures ScanRows(failing, c, keys + rest) == ScanRows(failing, c, keys)
  {
    if rest == [] {
      assert keys + rest == keys;
    } else {
      var n := |rest| - 1;
      ScanRowsStop(failing, c, keys, rest[..n]);
      assert (keys + rest)[..|keys + rest| - 1] == keys + rest[..n];
    }
  }

  /** `getAppliedMigrations` / `getAppliedSeeds`: query the tracking table
      and scan its keys. Reads never change the tables. */
  function ReadApplied(d: Db, failing: set<nat>, table: Table): (r: (nat, Result<set<Key>>))
    ensures r.0 > d.calls
  {
    match QueryStep(failing, d.calls, d.tables, table)
    case Some(f) => (d.calls + 1, Err(f))
    case None =>
      ScanKeysReads(failing, d.calls + 1, TableKeys(d.tables, table));
      ScanKeys(failing, d.calls + 1, TableKeys(d.tables, table))
  }

  /** The calls a read of `table` makes when nothing fails: the query, a
      `Next` and a `Scan` per row, and the final `Next`. */
  function ReadCalls(d: Db, table: Table): nat
  {
    2 * |TableKeys(d.tables, table)| + 2
  }

  /** The applied set that is read holds only recorded keys, and all of
      them when none of the read's calls fails. A failing `Next` can cut
      the read short without an error. */
  lemma ReadAppliedIsRecorded(d: Db, failing: set<nat>, table: Table)
    ensures ReadApplied(d, failing, table).1.Ok? ==> ReadApplied(d, failing, table).1.value <= Recorded(d.tables, table)
    ensures HasTable(d.tables, table) && NoFaultIn(failing, d.calls, d.calls + ReadCalls(d, table)) ==>
      ReadApplied(d, failing, table) == (d.calls + ReadCalls(d, table), Ok(Recorded(d.tables, table)))
  {
    var keys := TableKeys(d.tables, table);
    ScanKeysReads(failing, d.calls + 1, keys);
    ScanRowsReads(failing, d.calls + 1, keys);
  }

  /** The short read: when the first `Next` fails, the read returns no
      keys and no error, whatever the table holds. */
  lemma ShortRead(d: Db, table: Table)
    requires HasTable(d.tables, table)
    ensures ReadApplied(d, {d.calls + 1}, table) == (d.calls + 2, Ok({}))
  {
    var keys := TableKeys(d.tables, table);
    var c := d.calls + 1;
    if keys != [] {
      assert keys[..1][..0] == [];
      assert ScanRows({c}, c, keys[..1]) == (c + 1, Ended(Ok({})));
      ScanRowsStop({c}, c, keys[..1], keys[1..]);
      assert keys[..1] + keys[1..] == keys;
    }
  }

  /** A whole `RunMigrations` / `RunSeeds` call on the sorted units. */
  function RunPipeline(d: Db, failing: set<nat>, table: Table, us: seq<Unit>): (Db, Outcome)
  {
    var (d1, o1) := Bootstrap(d, failing, table);
    if o1.Failed? then (d1, o1)
    else
      var (c2, r) := ReadApplied(d1, failing, table);
      if r.Err? then (Db(d1.tables, c2), Failed(StoreError(r.failure)))
      else RunUnits(Db(d1.tables, c2), failing, us, r.value)
  }

  /** If the tracking table cannot be created, the run returns that error
      and no unit is attempted: the tables are as they were. */
  lemma BootstrapFailureStops(d: Db, failing: set<nat>, table: Table, us: seq<Unit>)
    requires Bootstrap(d, failing, table).1.Failed?
    ensures RunPipeline(d, failing, table, us) == Bootstrap(d, failing, table)
    ensures RunPipeline(d, failing, table, us).0.tables == d.tables
  {
  }

  /** A run that succeeded leaves every unit's key recorded, so long as
      the applied set it was given held only recorded keys. */
  lemma DoneRecordsAll(d: Db, failing: set<nat>, us: seq<Unit>, applied: set<Key>, table: Table)
    requires AllRecordInto(us, table)
    requires applied <= Recorded(d.tables, table)
    requires RunUnits(d, failing, us, applied).1.Done?
    ensures forall u :: u in us ==> u.key in Recorded(RunUnits(d, failing, us, applied).0.tables, table)
  {
    var k := RunUnitsCommitsPrefix(d, failing, us, applied, table);
    var ps := Pending(us, applied);
    assert ps[..k] == ps;
    PendingRecordsInto(us, applied, table, k);
    InstallAllRecords(d.tables, ps, table);
    var t := RunUnits(d, failing, us, applied).0.tables;
    assert Recorded(t, table) == Recorded(d.tables, table) + KeysOf(ps);
    forall u | u in us
      ensures u.key in Recorded(d.tables, table) + KeysOf(ps)
    {
      if u.key !in applied {
        PendingHas(us, applied, u);
      }
    }
  }

  /** Pending units record where the whole list does. */
  lemma PendingRecordsInto(us: seq<Unit>, applied: set<Key>, table: Table, k: nat)
    requires AllRecordInto(us, table)
    requires k <= |Pending(us, applied)|
    ensures AllRecordInto(Pending(us, applied)[..k], table)
  {
    PendingIn(us, applied);
    var ps := Pending(us, applied);
    forall v | v in ps[..k] ensures RecordsInto(v, table) {
      assert v in ps;
    }
  }

  /** Pending units are units of the list whose key was not applied. */
  lemma {:induction false} PendingIn(us: seq<Unit>, applied: set<Key>)
    ensures forall v :: v in Pending(us, applied) ==> v in us && v.key !in applied
  {
    if us != [] {
      var n := |us| - 1;
      PendingIn(us[..n], applied);
      assert forall v :: v in us[..n] ==> v in us;
    }
  }

  lemma {:induction false} PendingHas(us: seq<Unit>, applied: set<Key>, u: Unit)
    requires u in us && u.key !in applied
    ensures u in Pending(us, applied)
  {
    var n := |us| - 1;
    if us[n] != u {
      assert u in us[..n];
      PendingHas(us[..n], applied, u);
    }
  }

  lemma {:induction false} PendingEmpty(us: seq<Unit>, applied: set<Key>)
    requires forall u :: u in us ==> u.key in applied
    ensures Pending(us, applied) == []
  {
    if us != [] {
      var n := |us| - 1;
      assert forall u :: u in us[..n] ==> u in us;
      PendingEmpty(us[..n], applied);
    }
  }

  /** Units whose keys are all recorded change no table, whichever of
      them the applied set misses: each one attempted fails on the primary
      key, so the run succeeds exactly when none is attempted. */
  lemma {:induction false} RecordedUnitsChangeNothing(d: Db, failing: set<nat>, us: seq<Unit>, applied: set<Key>, table: Table)
    requires AllRecordInto(us, table)
    requires forall u :: u in us ==> u.key in Recorded(d.tables, table)
    ensures RunUnits(d, failing, us, applied).0.tables == d.tables
    ensures RunUnits(d, failing, us, applied).1.Done? <==> Pending(us, applied) == []
  {
    if us != [] {
      var n := |us| - 1;
      var pre, last := us[..n], us[n];
      assert forall u :: u in pre ==> u in us;
      RecordedUnitsChangeNothing(d, failing, pre, applied, table);
      var prev := RunUnits(d, failing, pre, applied);
      assert RunUnits(d, failing, us, applied) == NextUnit(prev, failing, last, applied);
      assert Pending(us, applied) == Pending(pre, applied) + (if last.key in applied then [] else [last]);
      if prev.1.Done? && last.key !in applied {
        assert RecordsInto(last, table) && last.key in Recorded(prev.0.tables, table);
        DuplicateRecordRejected(prev.0, failing, last, table);
      }
    }
  }

  /** Idempotence: after a run that succeeded, a second run of the same
      units against the store that kept its commits changes no table,
      whatever the oracle does on the second run. When the second run
      reads every recorded key (as it does when none of its read's calls
      fails), it ends right after the read, with no further call. */
  lemma RerunChangesNothing(d: Db, failing: set<nat>, table: Table, us: seq<Unit>, calls: nat, failing2: set<nat>)
    requires AllRecordInto(us, table)
    requires RunPipeline(d, failing, table, us).1.Done?
    ensures var t := RunPipeline(d, failing, table, us).0.tables;
      var e := Db(t, calls);
      var (e1, p1) := Bootstrap(e, failing2, table);
      var read := ReadApplied(e1, failing2, table);
      && RunPipeline(e, failing2, table, us).0.tables == t
      && (p1.Done? && read.1 == Ok(Recorded(t, table)) ==>
            RunPipeline(e, failing2, table, us) == (Db(t, read.0), Done))
      && (p1.Done? && NoFaultIn(failing2, e1.calls, e1.calls + ReadCalls(e1, table)) ==>
            RunPipeline(e, failing2, table, us) == (Db(t, e1.calls + ReadCalls(e1, table)), Done))
  {
    var t := FirstRunRecordsAll(d, failing, table, us);
    var e := Db(t, calls);
    var (e1, p1) := Bootstrap(e, failing2, table);
    if p1.Done? {
      assert e1.tables == t;
      var (e2, s) := ReadApplied(e1, failing2, table);
      ReadAppliedIsRecorded(e1, failing2, table);
      if s.Ok? {
        RecordedUnitsChangeNothing(Db(t, e2), failing2, us, s.value, table);
        if s.value == Recorded(t, table) {
          PendingEmpty(us, s.value);
          SkipApplied(Db(t, e2), failing2, us, s.value);
        }
      }
    }
  }

  /** The tables a successful run leaves: every unit's key is recorded and
      the tracking table exists. */
  lemma FirstRunRecordsAll(d: Db, failing: set<nat>, table: Table, us: seq<Unit>) returns (t: Tables)
    requires AllRecordInto(us, table)
    requires RunPipeline(d, failing, table, us).1.Done?
    ensures t == RunPipeline(d, failing, table, us).0.tables
    ensures HasTable(t, table)
    ensures forall u :: u in us ==> u.key in Recorded(t, table)
  {
    var (d1, o1) := Bootstrap(d, failing, table);
    var (c2, r) := ReadApplied(d1, failing, table);
    ReadAppliedIsRecorded(d1, failing, table);
    var dr := Db(d1.tables, c2);
    DoneRecordsAll(dr, failing, us, r.value, table);
    var k := RunUnitsCommitsPrefix(dr, failing, us, r.value, table);
    PendingRecordsInto(us, r.value, table, k);
    InstallAllRecords(d1.tables, Pending(us, r.value)[..k], table);
    t := RunPipeline(d, failing, table, us).0.tables;
  }

  predicate DistinctKeys(us: seq<Unit>)
  {
    forall i, j :: 0 <= i < j < |us| ==> us[i].key != us[j].key
  }

  /** Only the membership of the units' own keys matters to `Pending`. */
  lemma {:induction false} PendingRespects(us: seq<Unit>, a: set<Key>, b: set<Key>)
    requires forall u :: u in us ==> (u.key in a <==> u.key in b)
    ensures Pending(us, a) == Pending(us, b)
  {
    if us != [] {
      var n := |us| - 1;
      assert forall u :: u in us[..n] ==> u in us;
      PendingRespects(us[..n], a, b);
    }
  }

  /** With distinct keys, no earlier unit shares the last unit's key. */
  lemma LastKeyFresh(us: seq<Unit>)
    requires us != [] && DistinctKeys(us)
    ensures forall u :: u in us[..|us| - 1] ==> u.key != us[|us| - 1].key
  {
    forall u | u in us[..|us| - 1] ensures u.key != us[|us| - 1].key {
      var i :| 0 <= i < |us| - 1 && us[..|us| - 1][i] == u;
    }
  }

  /** With distinct keys, recording the first `k` pending units leaves
      exactly the rest pending. */
  lemma {:induction false} PendingAfterPrefix(us: seq<Unit>, applied: set<Key>, k: nat)
    requires DistinctKeys(us)
    requires k <= |Pending(us, applied)|
    ensures Pending(us, applied + KeysOf(Pending(us, applied)[..k])) == Pending(us, applied)[k..]
  {
    if us != [] {
      var n := |us| - 1;
      var last := us[n];
      var pre := us[..n];
      var ps' := Pending(pre, applied);
      var ps := Pending(us, applied);
      var b := applied + KeysOf(ps[..k]);
      assert DistinctKeys(pre);
      LastKeyFresh(us);
      assert Pending(us, b) == Pending(pre, b) + (if last.key in b then [] else [last]);
      if last.key in applied {
        assert ps == ps';
        PendingAfterPrefix(pre, applied, k);
      } else if k <= |ps'| {
        PendingAfterPrefix(pre, applied, k);
        PendingAfterPrefixKeepsLast(us, applied, k);
      } else {
        PendingAfterPrefix(pre, applied, |ps'|);
        PendingAfterWholePrefix(us, applied);
        assert ps[..k] == ps;
      }
    }
  }

  lemma PendingAfterPrefixKeepsLast(us: seq<Unit>, applied: set<Key>, k: nat)
    requires us != [] && DistinctKeys(us) && us[|us| - 1].key !in applied
    requires k <= |Pending(us[..|us| - 1], applied)|
    requires DistinctKeys(us[..|us| - 1])
    requires forall u :: u in us[..|us| - 1] ==> u.key != us[|us| - 1].key
    requires Pending(us[..|us| - 1], applied + KeysOf(Pending(us[..|us| - 1], applied)[..k]))
          == Pending(us[..|us| - 1], applied)[k..]
    ensures Pending(us, applied + KeysOf(Pending(us, applied)[..k])) == Pending(us, applied)[k..]
  {
    var n := |us| - 1;
    var last := us[n];
    var pre := us[..n];
    var ps' := Pending(pre, applied);
    var ps := Pending(us, applied);
    assert ps == ps' + [last];
    assert ps[..k] == ps'[..k];
    var b := applied + KeysOf(ps'[..k]);
    assert last.key !in KeysOf(ps'[..k]) by {
      PendingIn(pre, applied);
      forall v | v in ps'[..k] ensures v.key != last.key {
        assert v in ps';
      }
    }
    assert Pending(us, b) == Pending(pre, b) + [last];
    assert ps[k..] == ps'[k..] + [last];
  }

  lemma PendingAfterWholePrefix(us: seq<Unit>, applied: set<Key>)
    requires us != [] && DistinctKeys(us) && us[|us| - 1].key !in applied
    requires forall u :: u in us[..|us| - 1] ==> u.key != us[|us| - 1].key
    requires Pending(us[..|us| - 1], applied + KeysOf(Pending(us[..|us| - 1], applied)[..|Pending(us[..|us| - 1], applied)|])) == []
    ensures Pending(us, applied + KeysOf(Pending(us, applied))) == []
  {
    var n := |us| - 1;
    var last := us[n];
    var pre := us[..n];
    var ps' := Pending(pre, applied);
    var ps := Pending(us, applied);
    assert ps == ps' + [last];
    assert ps'[..|ps'|] == ps';
    KeysOfSnoc(ps', last);
    var b := applied + KeysOf(ps);
    var b' := applied + KeysOf(ps');
    PendingRespects(pre, b, b');
    assert Pending(us, b) == Pending(pre, b);
  }

  /** Resume after a failure: the store keeps the commits made before the
      failing unit, so a rerun finds exactly the failed unit and those
      after it still pending, in the same order. */
  lemma ResumeAfterFailure(d: Db, failing: set<nat>, us: seq<Unit>, table: Table) returns (k: nat)
    requires AllRecordInto(us, table) && DistinctKeys(us)
    requires RunUnits(d, failing, us, Recorded(d.tables, table)).1.Failed?
    ensures k < |Pending(us, Recorded(d.tables, table))|
    ensures Pending(us, Recorded(RunUnits(d, failing, us, Recorded(d.tables, table)).0.tables, table))
         == Pending(us, Recorded(d.tables, table))[k..]
  {
    var applied := Recorded(d.tables, table);
    k := RunUnitsCommitsPrefix(d, failing, us, applied, table);
    var ps := Pending(us, applied);
    PendingRecordsInto(us, applied, table, k);
    InstallAllRecords(d.tables, ps[..k], table);
    PendingAfterPrefix(us, applied, k);
  }
}
