/** `FileLoader` of pkg/database/seeder/seeder.go: migrations and seeds read
    from the `.sql` files of a directory. The directory is given as its
    entries, each a file name with the file's content, in the order the
    directory lists them. A migration file is named
    `<version>_<description>_<up|down>.sql`, a seed file
    `<priority>_<name>.sql`. */
module Loader {
  import opened Wrappers
  import opened Text
  import opened Entities

  datatype Entry = Entry(name: string, content: string)

  /** The loader's errors, each naming the offending file. */
  datatype LoadError =
    | InvalidMigrationName(file: string)
    | InvalidVersion(file: string)
    | InvalidSeedName(file: string)
    | InvalidPriority(file: string)

  datatype Loaded<T> = Loaded(value: T) | LoadFailed(error: LoadError)

  /** What one migration file name says. */
  datatype MigrationFile = MigrationFile(version: int, description: string, isUp: bool)

  /** Files without the `.sql` suffix are passed over. */
  predicate IsSql(e: Entry)
  {
    HasSuffix(e.name, ".sql")
  }

  /** The name without `.sql`, cut at every `_`. */
  function Stem(name: string): seq<string>
  {
    Split(TrimSuffix(name, ".sql"), '_')
  }

  /** A migration file name: at least three `_`-separated parts, the first
      an integer, and the direction read from the end of the last part
      (any last part ending in "up" counts as the up script). */
  function ParseMigrationName(name: string): Loaded<MigrationFile>
  {
    var parts := Stem(name);
    if |parts| < 3 then LoadFailed(InvalidMigrationName(name))
    else match Atoi(parts[0])
      case None => LoadFailed(InvalidVersion(name))
      case Some(v) =>
        Loaded(MigrationFile(v, Join(parts[1..|parts| - 1], "_"), HasSuffix(parts[|parts| - 1], "up")))
  }

  /** A seed file name: at least two parts, the first an integer; the name
      is all that follows the first `_`. */
  function ParseSeedName(name: string): Loaded<(int, string)>
  {
    var parts := Stem(name);
    if |parts| < 2 then LoadFailed(InvalidSeedName(name))
    else match Atoi(parts[0])
      case None => LoadFailed(InvalidPriority(name))
      case Some(p) => Loaded((p, Join(parts[1..], "_")))
  }

  /** A name with fewer than two `_` before `.sql` is not a migration. */
  lemma MigrationNameTooShort(name: string)
    requires CountChar(TrimSuffix(name, ".sql"), '_') < 2
    ensures ParseMigrationName(name) == LoadFailed(InvalidMigrationName(name))
  {
    SplitLength(TrimSuffix(name, ".sql"), '_');
  }

  /** A name without `_` before `.sql` is not a seed. */
  lemma SeedNameTooShort(name: string)
    requires '_' !in TrimSuffix(name, ".sql")
    ensures ParseSeedName(name) == LoadFailed(InvalidSeedName(name))
  {
    SplitNoSeparator(TrimSuffix(name, ".sql"), '_');
  }

  /** Reading a migration name: the version is the part before the first
      `_`, the direction is decided by the part after the last `_`, and the
      description is exactly what lies between them. Every well-formed
      name has this shape, and every name of this shape reads this way. */
  lemma {:induction false} ParseMigrationNameOf(pre: string, desc: string, last: string)
    requires '_' !in pre && '_' !in last
    ensures var name := pre + "_" + desc + "_" + last + ".sql";
      ParseMigrationName(name)
        == if Atoi(pre).None? then LoadFailed(InvalidVersion(name))
           else Loaded(MigrationFile(Atoi(pre).value, desc, HasSuffix(last, "up")))
  {
    var stem := pre + "_" + desc + "_" + last;
    TrimAppendedSuffix(stem, ".sql");
    assert stem + ".sql" == pre + "_" + desc + "_" + last + ".sql";
    assert stem == pre + ['_'] + (desc + ['_'] + last);
    SplitAround(pre, desc + ['_'] + last, '_');
    SplitAround(desc, last, '_');
    SplitNoSeparator(pre, '_');
    SplitNoSeparator(last, '_');
    JoinSplit(desc, '_');
    var parts := [pre] + Split(desc, '_') + [last];
    assert Stem(stem + ".sql") == parts;
    assert parts[0] == pre;
    assert parts[1..|parts| - 1] == Split(desc, '_');
  }

  lemma {:induction false} MigrationNameParts(name: string) returns (pre: string, last: string)
    requires ParseMigrationName(name).Loaded?
    ensures '_' !in pre && '_' !in last
    ensures var f := ParseMigrationName(name).value;
      TrimSuffix(name, ".sql") == pre + "_" + f.description + "_" + last &&
      Atoi(pre) == Some(f.version) && f.isUp == HasSuffix(last, "up")
  {
    var parts := Stem(name);
    JoinSplit(TrimSuffix(name, ".sql"), '_');
    var n := |parts|;
    pre, last := parts[0], parts[n - 1];
    var mid := parts[1..n - 1];
    assert parts[..n - 1] == [pre] + mid;
    JoinLast(parts, "_");
    assert Join(parts[..n - 1], "_") == pre + "_" + Join(mid, "_");
  }

  /** Reading a seed name: the priority is the part before the first `_`,
      the name everything after it. */
  lemma {:induction false} ParseSeedNameOf(pre: string, rest: string)
    requires '_' !in pre
    ensures var name := pre + "_" + rest + ".sql";
      ParseSeedName(name)
        == if Atoi(pre).None? then LoadFailed(InvalidPriority(name))
           else Loaded((Atoi(pre).value, rest))
  {
    var stem := pre + "_" + rest;
    TrimAppendedSuffix(stem, ".sql");
    assert stem + ".sql" == pre + "_" + rest + ".sql";
    assert stem == pre + ['_'] + rest;
    SplitAround(pre, rest, '_');
    SplitNoSeparator(pre, '_');
    JoinSplit(rest, '_');
    var parts := [pre] + Split(rest, '_');
    assert Stem(stem + ".sql") == parts;
    assert parts[1..] == Split(rest, '_');
  }

  lemma {:induction false} SeedNameParts(name: string) returns (pre: string)
    requires ParseSeedName(name).Loaded?
    ensures '_' !in pre
    ensures var (p, n) := ParseSeedName(name).value;
      TrimSuffix(name, ".sql") == pre + "_" + n && Atoi(pre) == Some(p)
  {
    var parts := Stem(name);
    JoinSplit(TrimSuffix(name, ".sql"), '_');
    pre := parts[0];
    assert parts == [pre] + parts[1..];
  }

  // The names `ranor-migrate generate` writes: a 14-digit timestamp, the
  // name it was given, and the direction.

  function GeneratedMigrationName(ts: string, name: string, up: bool): string
  {
    ts + "_" + name + (if up then "_up.sql" else "_down.sql")
  }

  function GeneratedSeedName(ts: string, name: string): string
  {
    ts + "_" + name + ".sql"
  }

  /** A generated migration pair reads back as the timestamp's value, the
      given name as description, and the right direction, whatever `_`
      the name itself holds. */
  lemma GeneratedMigrationRoundTrip(ts: string, name: string, up: bool)
    requires ts != [] && AllDigits(ts) && DigitsValue(ts) <= MaxInt64
    ensures ParseMigrationName(GeneratedMigrationName(ts, name, up))
         == Loaded(MigrationFile(DigitsValue(ts), name, up))
  {
    var last := if up then "up" else "down";
    assert GeneratedMigrationName(ts, name, up) == ts + "_" + name + "_" + last + ".sql";
    assert '_' !in ts by {
      forall i | 0 <= i < |ts| ensures ts[i] != '_' {
        DigitAt(ts, i);
      }
    }
    ParseMigrationNameOf(ts, name, last);
    AtoiDigits(ts);
  }

  lemma GeneratedSeedRoundTrip(ts: string, name: string)
    requires ts != [] && AllDigits(ts) && DigitsValue(ts) <= MaxInt64
    ensures ParseSeedName(GeneratedSeedName(ts, name)) == Loaded((DigitsValue(ts), name))
  {
    assert '_' !in ts by {
      forall i | 0 <= i < |ts| ensures ts[i] != '_' {
        DigitAt(ts, i);
      }
    }
    ParseSeedNameOf(ts, name);
    AtoiDigits(ts);
  }

  // ---- LoadMigrationsFromDir ----

  /** One file merged in: the version's migration is created with this
      file's description if it is new, then its Up or Down is set. */
  function MergeFile(m: map<int, Migration>, f: MigrationFile, content: string): map<int, Migration>
  {
    var base := if f.version in m then m[f.version] else Migration(f.version, f.description, "", "");
    m[f.version := if f.isUp then base.(up := content) else base.(down := content)]
  }

  /** The map after the entries in order, or the first file's error. */
  function MergeMigrations(es: seq<Entry>): Loaded<map<int, Migration>>
  {
    if es == [] then Loaded(map[])
    else
      var e := es[|es| - 1];
      match MergeMigrations(es[..|es| - 1])
      case LoadFailed(err) => LoadFailed(err)
      case Loaded(m) =>
        if !IsSql(e) then Loaded(m)
        else match ParseMigrationName(e.name)
          case LoadFailed(err) => LoadFailed(err)
          case Loaded(f) => Loaded(MergeFile(m, f, e.content))
  }

  /** The migration file `e` says, if it is one. */
  function MigrationFileOf(e: Entry): Option<MigrationFile>
  {
    if IsSql(e) && ParseMigrationName(e.name).Loaded? then Some(ParseMigrationName(e.name).value) else None
  }

  predicate BadMigrationFile(e: Entry)
  {
    IsSql(e) && ParseMigrationName(e.name).LoadFailed?
  }

  // Reference definitions, entry by entry, of what the merge keeps.

  predicate FileFor(e: Entry, v: int)
  {
    MigrationFileOf(e).Some? && MigrationFileOf(e).value.version == v
  }

  predicate VersionSeen(es: seq<Entry>, v: int)
  {
    exists i :: 0 <= i < |es| && FileFor(es[i], v)
  }

  /** The description of the first file for version `v`. */
  function FirstDescription(es: seq<Entry>, v: int): string
  {
    if es == [] then ""
    else if FileFor(es[0], v) then MigrationFileOf(es[0]).value.description
    else FirstDescription(es[1..], v)
  }

  /** The content of the last up (or down) file for version `v`; "" when
      there is none. */
  function LastContent(es: seq<Entry>, v: int, up: bool): string
  {
    if es == [] then ""
    else
      var e := es[|es| - 1];
      if FileFor(e, v) && MigrationFileOf(e).value.isUp == up then e.content
      else LastContent(es[..|es| - 1], v, up)
  }

  lemma {:induction false} FirstDescriptionSnoc(es: seq<Entry>, e: Entry, v: int)
    ensures FirstDescription(es + [e], v)
         == if VersionSeen(es, v) then FirstDescription(es, v)
            else if FileFor(e, v) then MigrationFileOf(e).value.description
            else ""
  {
    if es == [] {
      assert [] + [e] == [e];
      assert [e][1..] == [];
    } else {
      assert (es + [e])[1..] == es[1..] + [e];
      FirstDescriptionSnoc(es[1..], e, v);
      if !FileFor(es[0], v) {
        assert VersionSeen(es, v) ==> VersionSeen(es[1..], v) by {
          if VersionSeen(es, v) {
            var i :| 0 <= i < |es| && FileFor(es[i], v);
            assert es[1..][i - 1] == es[i];
          }
        }
        assert VersionSeen(es[1..], v) ==> VersionSeen(es, v) by {
          if VersionSeen(es[1..], v) {
            var i :| 0 <= i < |es[1..]| && FileFor(es[1..][i], v);
            assert es[i + 1] == es[1..][i];
          }
        }
      } else {
        assert VersionSeen(es, v) by { assert FileFor(es[0], v); }
      }
    }
  }

  lemma VersionSeenSnoc(es: seq<Entry>, e: Entry, v: int)
    ensures VersionSeen(es + [e], v) <==> VersionSeen(es, v) || FileFor(e, v)
  {
    if VersionSeen(es + [e], v) && !FileFor(e, v) {
      var i :| 0 <= i < |es + [e]| && FileFor((es + [e])[i], v);
      assert i < |es| && es[i] == (es + [e])[i];
    }
    if VersionSeen(es, v) {
      var i :| 0 <= i < |es| && FileFor(es[i], v);
      assert (es + [e])[i] == es[i];
    }
    if FileFor(e, v) {
      assert (es + [e])[|es|] == e;
    }
  }

  lemma {:induction false} LastContentUnseen(es: seq<Entry>, v: int, up: bool)
    requires !VersionSeen(es, v)
    ensures LastContent(es, v, up) == ""
  {
    if es != [] {
      var n := |es| - 1;
      assert es[..n] + [es[n]] == es;
      VersionSeenSnoc(es[..n], es[n], v);
      LastContentUnseen(es[..n], v, up);
    }
  }

  /** The merged map has one migration for each version some file names,
      keyed by that version; its description is the first such file's,
      its Up and Down the contents of the last up and down files (empty
      when there is none). */
  lemma {:induction false} MergeMigrationsMeaning(es: seq<Entry>, v: int)
    requires MergeMigrations(es).Loaded?
    ensures v in MergeMigrations(es).value <==> VersionSeen(es, v)
    ensures v in MergeMigrations(es).value ==>
      MergeMigrations(es).value[v]
        == Migration(v, FirstDescription(es, v), LastContent(es, v, true), LastContent(es, v, false))
  {
    if es != [] {
      var n := |es| - 1;
      var e := es[n];
      assert es[..n] + [e] == es;
      MergeMigrationsMeaning(es[..n], v);
      VersionSeenSnoc(es[..n], e, v);
      FirstDescriptionSnoc(es[..n], e, v);
      var m := MergeMigrations(es[..n]).value;
      if !IsSql(e) {
        assert MergeMigrations(es) == Loaded(m);
        assert !FileFor(e, v);
      } else {
        var f := ParseMigrationName(e.name).value;
        assert MergeMigrations(es) == Loaded(MergeFile(m, f, e.content));
        assert MigrationFileOf(e) == Some(f);
        if f.version == v && v !in m {
          LastContentUnseen(es[..n], v, true);
          LastContentUnseen(es[..n], v, false);
        }
      }
    }
  }

  /** Loading fails exactly when some `.sql` file has a bad name, and then
      with the first such file's error. */
  lemma {:induction false} MergeFailsAtFirstBad(es: seq<Entry>) returns (i: nat)
    requires MergeMigrations(es).LoadFailed?
    ensures i < |es| && BadMigrationFile(es[i])
    ensures MergeMigrations(es).error == ParseMigrationName(es[i].name).error
    ensures forall j :: 0 <= j < i ==> !BadMigrationFile(es[j])
  {
    var n := |es| - 1;
    if MergeMigrations(es[..n]).LoadFailed? {
      i := MergeFailsAtFirstBad(es[..n]);
      assert es[i] == es[..n][i];
      forall j | 0 <= j < i ensures !BadMigrationFile(es[j]) {
        assert es[j] == es[..n][j];
      }
    } else {
      i := n;
      forall j | 0 <= j < i ensures !BadMigrationFile(es[j]) {
        assert es[j] == es[..n][j];
        if BadMigrationFile(es[j]) {
          MergeSeesBad(es[..n], j);
        }
      }
    }
  }

  lemma {:induction false} MergeSeesBad(es: seq<Entry>, j: nat)
    requires j < |es| && BadMigrationFile(es[j])
    ensures MergeMigrations(es).LoadFailed?
  {
    var n := |es| - 1;
    if j < n {
      assert es[..n][j] == es[j];
      MergeSeesBad(es[..n], j);
    } else if MergeMigrations(es[..n]).Loaded? {
      assert ParseMigrationName(es[n].name).LoadFailed?;
    }
  }

  lemma {:induction false} MergeLoadsWhenGood(es: seq<Entry>)
    requires forall j :: 0 <= j < |es| ==> !BadMigrationFile(es[j])
    ensures MergeMigrations(es).Loaded?
  {
    if es != [] {
      var n := |es| - 1;
      forall j | 0 <= j < n ensures !BadMigrationFile(es[..n][j]) {
        assert es[..n][j] == es[j];
      }
      MergeLoadsWhenGood(es[..n]);
    }
  }

  /** `LoadMigrationsFromDir`: the entries merged, then the map handed
      back as a list in no particular order (Go's map iteration order). */
  method LoadMigrationsFromDir(entries: seq<Entry>) returns (ms: seq<Migration>, err: Option<LoadError>)
    ensures err.Some? <==> MergeMigrations(entries).LoadFailed?
    ensures err.Some? ==> err.value == MergeMigrations(entries).error && ms == []
    ensures err.None? ==> ListsMap(ms, MergeMigrations(entries).value)
  {
    var merged;
    merged, err := MergeEntries(entries);
    if err.Some? {
      return [], err;
    }
    forall v | v in merged ensures merged[v].version == v {
      MergeMigrationsMeaning(entries, v);
    }
    ms := MapToList(merged);
  }

  /** The loop over the directory entries, filling the map. */
  method MergeEntries(entries: seq<Entry>) returns (merged: map<int, Migration>, err: Option<LoadError>)
    ensures MergeMigrations(entries) == if err.None? then Loaded(merged) else LoadFailed(err.value)
  {
    merged := map[];
    var i := 0;
    while i < |entries|
      invariant 0 <= i <= |entries|
      invariant MergeMigrations(entries[..i]) == Loaded(merged)
    {
      var e := entries[i];
      MergePrefixStep(entries, i);
      if IsSql(e) {
        var parsed := ParseMigrationName(e.name);
        if parsed.LoadFailed? {
          return merged, Some(parsed.error);
        }
        var f := parsed.value;
        var mg := if f.version in merged then merged[f.version] else Migration(f.version, f.description, "", "");
        if f.isUp {
          mg := mg.(up := e.content);
        } else {
          mg := mg.(down := e.content);
        }
        merged := merged[f.version := mg];
      }
      i := i + 1;
    }
    assert entries[..i] == entries;
    err := None;
  }

  /** `for _, m := range migrations`: the values of the map, each once, in
      whatever order the keys are picked. */
  method MapToList(merged: map<int, Migration>) returns (ms: seq<Migration>)
    requires forall v :: v in merged ==> merged[v].version == v
    ensures ListsMap(ms, merged)
  {
    ms := [];
    var rest := merged.Keys;
    ghost var done: set<int> := {};
    while rest != {}
      invariant Listing(ms, rest, done, merged)
      decreases |rest|
    {
      NonEmptyHasMember(rest);
      var v :| v in rest;
      ListingStep(ms, rest, done, merged, v);
      ms := ms + [merged[v]];
      rest := rest - {v};
      done := done + {v};
    }
    ListingDone(ms, done, merged);
  }

  /** Part way through the range over `m`: the keys in `rest` are still
      to come, those in `done` are listed in `ms`. */
  predicate Listing(ms: seq<Migration>, rest: set<int>, done: set<int>, m: map<int, Migration>)
  {
    rest + done == m.Keys && rest !! done && ListsPart(ms, done, m) &&
    (forall v :: v in m ==> m[v].version == v)
  }

  lemma ListingStep(ms: seq<Migration>, rest: set<int>, done: set<int>, m: map<int, Migration>, v: int)
    requires Listing(ms, rest, done, m) && v in rest
    ensures Listing(ms + [m[v]], rest - {v}, done + {v}, m)
    ensures |rest - {v}| < |rest|
  {
    ListsPartStep(ms, done, m, v);
  }

  lemma ListingDone(ms: seq<Migration>, done: set<int>, m: map<int, Migration>)
    requires Listing(ms, {}, done, m)
    ensures ListsMap(ms, m)
  {
    assert done == m.Keys;
    ListsPartDone(ms, m);
  }

  /** The versions of the migrations in `ms`. */
  function Versions(ms: seq<Migration>): set<int>
  {
    if ms == [] then {} else Versions(ms[..|ms| - 1]) + {ms[|ms| - 1].version}
  }

  lemma {:induction false} VersionsMeaning(ms: seq<Migration>, v: int)
    ensures v in Versions(ms) <==> exists j :: 0 <= j < |ms| && ms[j].version == v
  {
    if ms != [] {
      var n := |ms| - 1;
      VersionsMeaning(ms[..n], v);
      if exists j :: 0 <= j < |ms| && ms[j].version == v {
        var j :| 0 <= j < |ms| && ms[j].version == v;
        if j < n {
          assert ms[..n][j].version == v;
        }
      }
      if exists j :: 0 <= j < n && ms[..n][j].version == v {
        var j :| 0 <= j < n && ms[..n][j].version == v;
        assert ms[j].version == v;
      }
    }
  }

  /** `ms` lists the values of `m` under the keys in `done`, each once. */
  predicate ListsPart(ms: seq<Migration>, done: set<int>, m: map<int, Migration>)
  {
    |ms| == |done| && Versions(ms) == done &&
    (forall j :: 0 <= j < |ms| ==> ms[j].version in done && ms[j].version in m && m[ms[j].version] == ms[j]) &&
    (forall j, k :: 0 <= j < k < |ms| ==> ms[j].version != ms[k].version)
  }

  lemma ListsPartStep(ms: seq<Migration>, done: set<int>, m: map<int, Migration>, v: int)
    requires ListsPart(ms, done, m) && v in m && v !in done && m[v].version == v
    ensures ListsPart(ms + [m[v]], done + {v}, m)
  {
    var ms' := ms + [m[v]];
    assert ms'[..|ms|] == ms;
    assert |done + {v}| == |done| + 1;
  }

  lemma ListsPartDone(ms: seq<Migration>, m: map<int, Migration>)
    requires ListsPart(ms, m.Keys, m)
    ensures ListsMap(ms, m)
  {
    assert |m.Keys| == |m|;
    forall v | v in m ensures exists j :: 0 <= j < |ms| && ms[j].version == v {
      VersionsMeaning(ms, v);
    }
  }

  lemma NonEmptyHasMember(s: set<int>)
    requires s != {}
    ensures exists x :: x in s
  {
    if forall x :: x !in s {
      assert false;
    }
  }

  /** `ms` lists the values of `m`, each once. */
  predicate ListsMap(ms: seq<Migration>, m: map<int, Migration>)
  {
    |ms| == |m| &&
    (forall j :: 0 <= j < |ms| ==> ms[j].version in m && m[ms[j].version] == ms[j]) &&
    (forall v :: v in m ==> exists j :: 0 <= j < |ms| && ms[j].version == v) &&
    (forall j, k :: 0 <= j < k < |ms| ==> ms[j].version != ms[k].version)
  }

  lemma {:induction false} MergeFailStays(es: seq<Entry>, rest: seq<Entry>)
    requires MergeMigrations(es).LoadFailed?
    ensures MergeMigrations(es + rest) == MergeMigrations(es)
  {
    if rest != [] {
      var n := |rest| - 1;
      MergeFailStays(es, rest[..n]);
      assert (es + rest)[..|es + rest| - 1] == es + rest[..n];
    } else {
      assert es + rest == es;
    }
  }

  /** What one more entry does to the map merged from the ones before. */
  lemma MergePrefixStep(es: seq<Entry>, i: nat)
    requires i < |es| && MergeMigrations(es[..i]).Loaded?
    ensures !IsSql(es[i]) ==> MergeMigrations(es[..i + 1]) == MergeMigrations(es[..i])
    ensures IsSql(es[i]) && ParseMigrationName(es[i].name).Loaded? ==>
      MergeMigrations(es[..i + 1])
        == Loaded(MergeFile(MergeMigrations(es[..i]).value, ParseMigrationName(es[i].name).value, es[i].content))
    ensures BadMigrationFile(es[i]) ==> MergeMigrations(es) == LoadFailed(ParseMigrationName(es[i].name).error)
  {
    var cur := es[..i + 1];
    assert cur[..|cur| - 1] == es[..i];
    assert cur[|cur| - 1] == es[i];
    if BadMigrationFile(es[i]) {
      MergeBadStops(es, i);
    }
  }

  lemma MergeBadStops(es: seq<Entry>, i: nat)
    requires i < |es| && MergeMigrations(es[..i]).Loaded? && BadMigrationFile(es[i])
    ensures MergeMigrations(es) == LoadFailed(ParseMigrationName(es[i].name).error)
  {
    var cur := es[..i + 1];
    assert cur[..|cur| - 1] == es[..i];
    assert cur[|cur| - 1] == es[i];
    assert MergeMigrations(cur) == LoadFailed(ParseMigrationName(es[i].name).error);
    MergeFailStays(cur, es[i + 1..]);
    PrefixSuffix(es, i + 1);
  }

  lemma PrefixSuffix(es: seq<Entry>, k: nat)
    requires k <= |es|
    ensures es[..k] + es[k..] == es
  {
  }

  /** One `.sql` file with a good name merged after the others. */
  lemma MergeStep(es: seq<Entry>, e: Entry)
    requires MergeMigrations(es).Loaded? && IsSql(e) && ParseMigrationName(e.name).Loaded?
    ensures MergeMigrations(es + [e])
         == Loaded(MergeFile(MergeMigrations(es).value, ParseMigrationName(e.name).value, e.content))
  {
    assert (es + [e])[..|es|] == es;
  }

  lemma GeneratedIsSql(ts: string, name: string, up: bool)
    ensures HasSuffix(GeneratedMigrationName(ts, name, up), ".sql")
  {
    var last := if up then "up" else "down";
    assert GeneratedMigrationName(ts, name, up) == (ts + "_" + name + "_" + last) + ".sql";
    TrimAppendedSuffix(ts + "_" + name + "_" + last, ".sql");
  }

  /** The up and down files `ranor-migrate generate` writes merge into one
      migration, whichever comes first. */
  lemma GeneratedPairMerges(ts: string, name: string, upSql: string, downSql: string, upFirst: bool)
    requires ts != [] && AllDigits(ts) && DigitsValue(ts) <= MaxInt64
    ensures var up := Entry(GeneratedMigrationName(ts, name, true), upSql);
      var down := Entry(GeneratedMigrationName(ts, name, false), downSql);
      MergeMigrations(if upFirst then [up, down] else [down, up])
        == Loaded(map[DigitsValue(ts) := Migration(DigitsValue(ts), name, upSql, downSql)])
  {
    var up := Entry(GeneratedMigrationName(ts, name, true), upSql);
    var down := Entry(GeneratedMigrationName(ts, name, false), downSql);
    GeneratedMigrationRoundTrip(ts, name, true);
    GeneratedMigrationRoundTrip(ts, name, false);
    GeneratedIsSql(ts, name, true);
    GeneratedIsSql(ts, name, false);
    if upFirst {
      MergeTwo(up, down);
    } else {
      MergeTwo(down, up);
    }
  }

  /** Two files of the same version, one up and one down, merge into one
      migration with the first file's description. */
  lemma MergeTwo(a: Entry, b: Entry)
    requires IsSql(a) && IsSql(b)
    requires ParseMigrationName(a.name).Loaded? && ParseMigrationName(b.name).Loaded?
    requires ParseMigrationName(a.name).value.version == ParseMigrationName(b.name).value.version
    requires ParseMigrationName(a.name).value.isUp != ParseMigrationName(b.name).value.isUp
    ensures var fa := ParseMigrationName(a.name).value;
      var (u, d) := if fa.isUp then (a.content, b.content) else (b.content, a.content);
      MergeMigrations([a, b]) == Loaded(map[fa.version := Migration(fa.version, fa.description, u, d)])
  {
    MergeStep([], a);
    assert [] + [a] == [a];
    MergeStep([a], b);
    assert [a] + [b] == [a, b];
    MergeUpAndDown(ParseMigrationName(a.name).value, ParseMigrationName(b.name).value, a.content, b.content);
  }

  lemma MergeUpAndDown(fa: MigrationFile, fb: MigrationFile, ca: string, cb: string)
    requires fa.version == fb.version && fa.isUp != fb.isUp
    ensures var (u, d) := if fa.isUp then (ca, cb) else (cb, ca);
      MergeFile(MergeFile(map[], fa, ca), fb, cb) == map[fa.version := Migration(fa.version, fa.description, u, d)]
  {
    var v := fa.version;
    var first := if fa.isUp then Migration(v, fa.description, ca, "") else Migration(v, fa.description, "", ca);
    assert MergeFile(map[], fa, ca) == map[v := first];
  }

  /** Entries without the `.sql` suffix make no difference. */
  lemma {:induction false} MergeIgnoresNonSql(es: seq<Entry>)
    ensures MergeMigrations(es) == MergeMigrations(SqlFiles(es))
  {
    if es != [] {
      var n := |es| - 1;
      MergeIgnoresNonSql(es[..n]);
      if IsSql(es[n]) {
        var fs := SqlFiles(es[..n]) + [es[n]];
        assert fs[..|fs| - 1] == SqlFiles(es[..n]);
      } else {
        assert SqlFiles(es) == SqlFiles(es[..n]);
      }
    }
  }

  /** The `.sql` entries, in order. */
  function SqlFiles(es: seq<Entry>): seq<Entry>
  {
    if es == [] then []
    else SqlFiles(es[..|es| - 1]) + if IsSql(es[|es| - 1]) then [es[|es| - 1]] else []
  }

  // ---- LoadSeedsFromDir ----

  /** One seed per `.sql` file, in directory order; each runs its file's
      content, or the first file's error. */
  function LoadSeeds(es: seq<Entry>): Loaded<seq<Seed>>
  {
    if es == [] then Loaded([])
    else
      var e := es[|es| - 1];
      match LoadSeeds(es[..|es| - 1])
      case LoadFailed(err) => LoadFailed(err)
      case Loaded(seeds) =>
        if !IsSql(e) then Loaded(seeds)
        else match ParseSeedName(e.name)
          case LoadFailed(err) => LoadFailed(err)
          case Loaded((p, n)) => Loaded(seeds + [Seed(n, p, [e.content])])
  }

  predicate BadSeedFile(e: Entry)
  {
    IsSql(e) && ParseSeedName(e.name).LoadFailed?
  }

  /** On success there is exactly one seed per `.sql` file, in the same
      order, named and prioritised by its file name, running its content
      verbatim. */
  lemma {:induction false} LoadSeedsMeaning(es: seq<Entry>)
    requires LoadSeeds(es).Loaded?
    ensures var seeds := LoadSeeds(es).value; var files := SqlFiles(es);
      |seeds| == |files| &&
      forall i :: 0 <= i < |seeds| ==>
        ParseSeedName(files[i].name) == Loaded((seeds[i].priority, seeds[i].name)) &&
        seeds[i].run == [files[i].content]
  {
    if es != [] {
      LoadSeedsMeaning(es[..|es| - 1]);
    }
  }

  /** Loading fails exactly when some `.sql` file has a bad seed name, and
      then with the first such file's error. */
  lemma {:induction false} SeedsFailAtFirstBad(es: seq<Entry>) returns (i: nat)
    requires LoadSeeds(es).LoadFailed?
    ensures i < |es| && BadSeedFile(es[i])
    ensures LoadSeeds(es).error == ParseSeedName(es[i].name).error
    ensures forall j :: 0 <= j < i ==> !BadSeedFile(es[j])
  {
    var n := |es| - 1;
    if LoadSeeds(es[..n]).LoadFailed? {
      i := SeedsFailAtFirstBad(es[..n]);
      assert es[i] == es[..n][i];
      forall j | 0 <= j < i ensures !BadSeedFile(es[j]) {
        assert es[j] == es[..n][j];
      }
    } else {
      i := n;
      forall j | 0 <= j < i ensures !BadSeedFile(es[j]) {
        assert es[j] == es[..n][j];
        if BadSeedFile(es[j]) {
          SeedsSeeBad(es[..n], j);
        }
      }
    }
  }

  lemma {:induction false} SeedsSeeBad(es: seq<Entry>, j: nat)
    requires j < |es| && BadSeedFile(es[j])
    ensures LoadSeeds(es).LoadFailed?
  {
    var n := |es| - 1;
    if j < n {
      assert es[..n][j] == es[j];
      SeedsSeeBad(es[..n], j);
    } else if LoadSeeds(es[..n]).Loaded? {
      assert ParseSeedName(es[n].name).LoadFailed?;
    }
  }

  lemma {:induction false} SeedsFailStay(es: seq<Entry>, rest: seq<Entry>)
    requires LoadSeeds(es).LoadFailed?
    ensures LoadSeeds(es + rest) == LoadSeeds(es)
  {
    if rest != [] {
      var n := |rest| - 1;
      SeedsFailStay(es, rest[..n]);
      assert (es + rest)[..|es + rest| - 1] == es + rest[..n];
    } else {
      assert es + rest == es;
    }
  }

  /** What one more entry does to the seeds loaded from the ones before. */
  lemma SeedsPrefixStep(es: seq<Entry>, i: nat)
    requires i < |es| && LoadSeeds(es[..i]).Loaded?
    ensures !IsSql(es[i]) ==> LoadSeeds(es[..i + 1]) == LoadSeeds(es[..i])
    ensures IsSql(es[i]) && ParseSeedName(es[i].name).Loaded? ==>
      var (p, n) := ParseSeedName(es[i].name).value;
      LoadSeeds(es[..i + 1]) == Loaded(LoadSeeds(es[..i]).value + [Seed(n, p, [es[i].content])])
    ensures BadSeedFile(es[i]) ==> LoadSeeds(es) == LoadFailed(ParseSeedName(es[i].name).error)
  {
    var cur := es[..i + 1];
    assert cur[..|cur| - 1] == es[..i];
    assert cur[|cur| - 1] == es[i];
    if BadSeedFile(es[i]) {
      SeedsBadStops(es, i);
    }
  }

  lemma SeedsBadStops(es: seq<Entry>, i: nat)
    requires i < |es| && LoadSeeds(es[..i]).Loaded? && BadSeedFile(es[i])
    ensures LoadSeeds(es) == LoadFailed(ParseSeedName(es[i].name).error)
  {
    var cur := es[..i + 1];
    assert cur[..|cur| - 1] == es[..i];
    assert cur[|cur| - 1] == es[i];
    assert LoadSeeds(cur) == LoadFailed(ParseSeedName(es[i].name).error);
    SeedsFailStay(cur, es[i + 1..]);
    PrefixSuffix(es, i + 1);
  }

  method LoadSeedsFromDir(entries: seq<Entry>) returns (seeds: seq<Seed>, err: Option<LoadError>)
    ensures LoadSeeds(entries) == if err.None? then Loaded(seeds) else LoadFailed(err.value)
    ensures err.Some? ==> seeds == []
  {
    seeds := [];
    var i := 0;
    while i < |entries|
      invariant 0 <= i <= |entries|
      invariant LoadSeeds(entries[..i]) == Loaded(seeds)
    {
      var e := entries[i];
      SeedsPrefixStep(entries, i);
      if IsSql(e) {
        var parsed := ParseSeedName(e.name);
        if parsed.LoadFailed? {
          return [], Some(parsed.error);
        }
        var (priority, name) := parsed.value;
        seeds := seeds + [Seed(name, priority, [e.content])];
      }
      i := i + 1;
    }
    assert entries[..i] == entries;
    err := None;
  }
}
