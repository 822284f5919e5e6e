/**
 * AppDatabase.kt: the schema version, the three migrations, the way Room
 * chains them (with the destructive fallback), and the `getDatabase`
 * singleton. Room opens the file lazily on first use; `AppDatabase.Open`
 * is that first open, run with the builder's configuration.
 */
module AppDb {
  import opened Wrappers
  import opened Sqlite

  /** `@Database(..., version = 4)`. */
  const VERSION: nat := 4
  const DATABASE_NAME := "elderly_care_database"

  const PATIENT_INFO := "patient_info"
  const NOTES := "notes"
  const NOTES_NEW := "notes_new"

  /** The tables of the two registered entities, PatientInfoEntity and NoteEntity. */
  const ENTITY_TABLES := [PATIENT_INFO, NOTES]

  const PATIENT_INFO_COLUMNS := ["id", "weight", "height"]
  const NOTES_V3_COLUMNS := ["id", "noteText"]
  const NOTES_COLUMNS := ["id", "noteText", "date", "time"]

  const DEFAULT_DATE := "2025-01-01"
  const DEFAULT_TIME := "00:00"

  datatype Migration = Migration(startVersion: nat, endVersion: nat, statements: seq<Statement>)

  const CREATE_PATIENT_INFO := CreateTableIfNotExists(PATIENT_INFO, PATIENT_INFO_COLUMNS)
  const CREATE_NOTES_V3 := CreateTableIfNotExists(NOTES, NOTES_V3_COLUMNS)
  const CREATE_NOTES_NEW := CreateTableIfNotExists(NOTES_NEW, NOTES_COLUMNS)
  const COPY_NOTES :=
    InsertSelect(NOTES_NEW, NOTES_COLUMNS,
                 [Column("id"), Column("noteText"), Literal(Text(DEFAULT_DATE)), Literal(Text(DEFAULT_TIME))],
                 NOTES)
  const DROP_NOTES := DropTable(NOTES)
  const RENAME_NOTES_NEW := RenameTable(NOTES_NEW, NOTES)

  const MIGRATION_1_2 := Migration(1, 2, [CREATE_PATIENT_INFO])
  const MIGRATION_2_3 := Migration(2, 3, [CREATE_NOTES_V3])
  const MIGRATION_3_4 := Migration(3, 4, [CREATE_NOTES_NEW, COPY_NOTES, DROP_NOTES, RENAME_NOTES_NEW])

  /** `.addMigrations(MIGRATION_1_2, MIGRATION_2_3, MIGRATION_3_4)`. */
  const MIGRATIONS := [MIGRATION_1_2, MIGRATION_2_3, MIGRATION_3_4]

  /** Room's generated `createAllTables` and `dropAllTables` for the two entities. */
  const CREATE_NOTES := CreateTableIfNotExists(NOTES, NOTES_COLUMNS)
  const CREATE_ALL_TABLES := [CREATE_PATIENT_INFO, CREATE_NOTES]
  const DROP_ALL_TABLES := [DropTableIfExists(PATIENT_INFO), DropTableIfExists(NOTES)]

  // ---------------------------------------------------------------------
  // The three migrations
  // ---------------------------------------------------------------------

  /** Version 1 to 2 adds an empty `patient_info(id, weight, height)` unless the table is there already. */
  lemma Migration1To2Effect(db: Tables)
    ensures PATIENT_INFO in db ==> ExecAll(db, MIGRATION_1_2.statements) == Success(db)
    ensures PATIENT_INFO !in db ==>
      ExecAll(db, MIGRATION_1_2.statements) == Success(db[PATIENT_INFO := Table(PATIENT_INFO_COLUMNS, [])])
  {
    ExecAllFrom(db, MIGRATION_1_2.statements, 0);
  }

  /** Version 2 to 3 adds an empty `notes(id, noteText)` unless the table is there already. */
  lemma Migration2To3Effect(db: Tables)
    ensures NOTES in db ==> ExecAll(db, MIGRATION_2_3.statements) == Success(db)
    ensures NOTES !in db ==>
      ExecAll(db, MIGRATION_2_3.statements) == Success(db[NOTES := Table(NOTES_V3_COLUMNS, [])])
  {
    ExecAllFrom(db, MIGRATION_2_3.statements, 0);
  }

  /** The row the copy step makes of an old note: same id and text, the fixed date and time. */
  ghost predicate ConvertedNote(before: Row, after: Row) {
    && after.Keys == {"id", "noteText", "date", "time"}
    && after["id"] == Get(before, "id")
    && after["noteText"] == Get(before, "noteText")
    && after["date"] == Text(DEFAULT_DATE)
    && after["time"] == Text(DEFAULT_TIME)
  }

  /** The copy step turns each old note into the row `ConvertedNote` describes. */
  lemma CopiedRowConverted(before: Row)
    ensures ConvertedNote(before, InsertedRow(NOTES_COLUMNS, NOTES_COLUMNS, COPY_NOTES.select, before))
  {
    var row := InsertedRow(NOTES_COLUMNS, NOTES_COLUMNS, COPY_NOTES.select, before);
    var cols := NOTES_COLUMNS;
    assert cols[..0] == [] && cols[..1] == ["id"];
    assert cols[..2] == ["id", "noteText"] && cols[..3] == ["id", "noteText", "date"];
    assert cols[0] == "id" && cols[1] == "noteText" && cols[2] == "date" && cols[3] == "time";
    assert row.Keys == {"id", "noteText", "date", "time"};
  }

  /** The copy step fills an empty `notes_new` with the converted old notes, in order. */
  lemma CopyStepEffect(db: Tables)
    requires NOTES in db && "id" in db[NOTES].columns && "noteText" in db[NOTES].columns
    requires NOTES_NEW in db && db[NOTES_NEW] == Table(NOTES_COLUMNS, [])
    ensures var r := Exec(db, COPY_NOTES);
      && r.Success?
      && r.value.Keys == db.Keys
      && (forall t :: t in db && t != NOTES_NEW ==> r.value[t] == db[t])
      && r.value[NOTES_NEW].columns == NOTES_COLUMNS
      && |r.value[NOTES_NEW].rows| == |db[NOTES].rows|
      && (forall i :: 0 <= i < |db[NOTES].rows| ==> ConvertedNote(db[NOTES].rows[i], r.value[NOTES_NEW].rows[i]))
  {
    var source := db[NOTES].rows;
    assert FirstMissing(NOTES_COLUMNS, NOTES_COLUMNS).None?;
    var read := ReadColumns(COPY_NOTES.select);
    assert forall c :: c in read ==> c == "id" || c == "noteText";
    assert FirstMissing(read, db[NOTES].columns).None?;
    var copied := seq(|source|, i requires 0 <= i < |source| =>
                    InsertedRow(NOTES_COLUMNS, NOTES_COLUMNS, COPY_NOTES.select, source[i]));
    assert Exec(db, COPY_NOTES) == Success(db[NOTES_NEW := Table(NOTES_COLUMNS, [] + copied)]);
    assert [] + copied == copied;
    forall i | 0 <= i < |source|
      ensures ConvertedNote(source[i], copied[i])
    {
      CopiedRowConverted(source[i]);
    }
  }

  /**
   * Version 3 to 4, from a `notes` table that has `id` and `noteText` and
   * no leftover `notes_new`: the same tables come out, `notes` now has the
   * four columns, every old note is kept in order with its id and text and
   * gets the date 2025-01-01 and the time 00:00, and no other table changes.
   */
  lemma Migration3To4Effect(db: Tables)
    requires NOTES in db && "id" in db[NOTES].columns && "noteText" in db[NOTES].columns
    requires NOTES_NEW !in db
    ensures var r := ExecAll(db, MIGRATION_3_4.statements);
      && r.Success?
      && r.value.Keys == db.Keys
      && NOTES_NEW !in r.value
      && (forall t :: t in db && t != NOTES ==> r.value[t] == db[t])
      && r.value[NOTES].columns == NOTES_COLUMNS
      && |r.value[NOTES].rows| == |db[NOTES].rows|
      && (forall i :: 0 <= i < |db[NOTES].rows| ==> ConvertedNote(db[NOTES].rows[i], r.value[NOTES].rows[i]))
  {
    var notes := db[NOTES];
    var s := MIGRATION_3_4.statements;
    var db1 := db[NOTES_NEW := Table(NOTES_COLUMNS, [])];
    assert Exec(db, s[0]) == Success(db1);
    CopyStepEffect(db1);
    var db2 := Exec(db1, s[1]).value;
    var copied := db2[NOTES_NEW];
    var db3 := db2 - {NOTES};
    assert Exec(db2, s[2]) == Success(db3);
    var db4 := (db3 - {NOTES_NEW})[NOTES := copied];
    assert Exec(db3, s[3]) == Success(db4);
    ExecAllFrom(db, s, 0);
    ExecAllFrom(db1, s, 1);
    ExecAllFrom(db2, s, 2);
    ExecAllFrom(db3, s, 3);
    assert s[0..] == s && s[4..] == [];
    assert ExecAll(db, s) == Success(db4);
  }

  /** Version 3 to 4 fails when there is no `notes` table to copy from. */
  lemma Migration3To4NeedsNotes(db: Tables)
    requires NOTES !in db
    ensures ExecAll(db, MIGRATION_3_4.statements).Failure?
  {
    var s := MIGRATION_3_4.statements;
    match Exec(db, s[0])
    case Failure(_) =>
    case Success(db1) =>
      assert NOTES !in db1;
      assert Exec(db1, s[1]).Failure?;
  }

  // ---------------------------------------------------------------------
  // Chaining migrations (Room's MigrationContainer.findMigrationPath)
  // ---------------------------------------------------------------------

  /** `m` leaves `start` and moves toward `end` without passing it. */
  predicate Toward(m: Migration, start: nat, end: nat) {
    m.startVersion == start &&
    if start < end then start < m.endVersion <= end else end <= m.endVersion < start
  }

  /** `m` gets at least as close to `end` as `other`. */
  predicate AtLeastAsFar(m: Migration, other: Migration, start: nat, end: nat) {
    if start < end then m.endVersion >= other.endVersion else m.endVersion <= other.endVersion
  }

  /**
   * The migration Room takes from `start`: among those moving toward `end`,
   * the one reaching furthest; of two with the same end version the later
   * registered one, which replaces the earlier in Room's table.
   */
  function NextStep(ms: seq<Migration>, start: nat, end: nat): (r: Option<Migration>)
    ensures r.Some? ==> r.value in ms && Toward(r.value, start, end)
    ensures r.Some? ==> forall i :: 0 <= i < |ms| && Toward(ms[i], start, end) ==> AtLeastAsFar(r.value, ms[i], start, end)
    ensures r.None? ==> forall i :: 0 <= i < |ms| ==> !Toward(ms[i], start, end)
    decreases |ms|
  {
    if ms == [] then None
    else
      var best := NextStep(ms[..|ms| - 1], start, end);
      var last := ms[|ms| - 1];
      assert forall i :: 0 <= i < |ms| - 1 ==> ms[i] == ms[..|ms| - 1][i];
      if Toward(last, start, end) && (best.None? || AtLeastAsFar(last, best.value, start, end)) then Some(last)
      else best
  }

  /** `path` is a run of registered migrations leading from `start` to `end`. */
  ghost predicate IsPath(path: seq<Migration>, ms: seq<Migration>, start: nat, end: nat)
    decreases |path|
  {
    if path == [] then start == end
    else path[0] in ms && path[0].startVersion == start && IsPath(path[1..], ms, path[0].endVersion, end)
  }

  /** The migrations Room runs to go from `start` to `end`, or `None` when no chain exists. */
  function FindMigrationPath(ms: seq<Migration>, start: nat, end: nat): (r: Option<seq<Migration>>)
    ensures r.Some? ==> IsPath(r.value, ms, start, end)
    decreases if start <= end then end - start else start - end
  {
    if start == end then Some([])
    else match NextStep(ms, start, end)
      case None => None
      case Some(m) =>
        match FindMigrationPath(ms, m.endVersion, end)
        case None => None
        case Some(rest) => Some([m] + rest)
  }

  /** From versions 1, 2 and 3 the registered migrations chain, in order, up to version 4. */
  lemma PathsToCurrentVersion(v: nat)
    requires 1 <= v <= 3
    ensures FindMigrationPath(MIGRATIONS, v, VERSION) == Some(MIGRATIONS[v - 1..])
  {
    assert Toward(MIGRATIONS[2], 3, VERSION);
    assert NextStep(MIGRATIONS, 3, VERSION) == Some(MIGRATION_3_4);
    assert FindMigrationPath(MIGRATIONS, 4, VERSION) == Some([]);
    assert [MIGRATION_3_4] + [] == [MIGRATION_3_4];
    assert FindMigrationPath(MIGRATIONS, 3, VERSION) == Some([MIGRATION_3_4]);
    if v <= 2 {
      assert Toward(MIGRATIONS[1], 2, VERSION);
      assert NextStep(MIGRATIONS, 2, VERSION) == Some(MIGRATION_2_3);
      assert [MIGRATION_2_3] + [MIGRATION_3_4] == [MIGRATION_2_3, MIGRATION_3_4];
      assert FindMigrationPath(MIGRATIONS, 2, VERSION) == Some([MIGRATION_2_3, MIGRATION_3_4]);
      if v == 1 {
        assert Toward(MIGRATIONS[0], 1, VERSION);
        assert NextStep(MIGRATIONS, 1, VERSION) == Some(MIGRATION_1_2);
        assert [MIGRATION_1_2] + [MIGRATION_2_3, MIGRATION_3_4] == MIGRATIONS;
      }
    }
  }

  /** No registered migration goes down, so a newer file has no path back to version 4. */
  lemma NoPathFromNewerVersion(v: nat)
    requires v > VERSION
    ensures FindMigrationPath(MIGRATIONS, v, VERSION) == None
  {
    assert NextStep(MIGRATIONS, v, VERSION) == None;
  }

  /** The statements of a path's migrations, one migration after the other. */
  function Statements(path: seq<Migration>): seq<Statement>
    decreases |path|
  {
    if path == [] then [] else Statements(path[..|path| - 1]) + path[|path| - 1].statements
  }

  /**
   * The migrations of a path, run one after the other: the same as running
   * all their statements in one go, where the first error stops the run.
   */
  function RunPath(db: Tables, path: seq<Migration>): (r: Result<Tables, SqlError>)
    ensures r == ExecAll(db, Statements(path))
    decreases |path|
  {
    if path == [] then Success(db)
    else
      ExecAllAppend(db, Statements(path[..|path| - 1]), path[|path| - 1].statements);
      match RunPath(db, path[..|path| - 1])
      case Failure(e) => Failure(e)
      case Success(t) => ExecAll(t, path[|path| - 1].statements)
  }

  // ---------------------------------------------------------------------
  // Opening the database
  // ---------------------------------------------------------------------

  datatype OpenError =
    | SqlFailed(error: SqlError)
    /** Room's schema check after the migrations found this entity table missing or with other columns. */
    | MigrationNotHandled(table: string)

  function ColumnSet(columns: seq<string>): set<string> {
    set c | c in columns
  }

  /** The columns of an entity table's current form. */
  function EntityColumns(table: string): seq<string> {
    if table == PATIENT_INFO then PATIENT_INFO_COLUMNS else NOTES_COLUMNS
  }

  /** The table is there with the columns its entity declares, in any order. */
  predicate TableMatches(db: Tables, table: string) {
    table in db && ColumnSet(db[table].columns) == ColumnSet(EntityColumns(table))
  }

  /** The first of `tables` that is missing or whose columns differ from its entity's. */
  function FirstUnmatched(db: Tables, tables: seq<string>): (r: Option<string>)
    ensures r.None? <==> forall i :: 0 <= i < |tables| ==> TableMatches(db, tables[i])
    ensures r.Some? ==> r.value in tables && !TableMatches(db, r.value)
  {
    if tables == [] then None
    else if !TableMatches(db, tables[0]) then Some(tables[0])
    else FirstUnmatched(db, tables[1..])
  }

  /** Room's schema check after migrating: the first entity table that does not match. */
  function FirstInvalidTable(db: Tables): (r: Option<string>)
    ensures r.None? <==> TableMatches(db, PATIENT_INFO) && TableMatches(db, NOTES)
    ensures r.Some? ==> r.value in ENTITY_TABLES && !TableMatches(db, r.value)
  {
    var r := FirstUnmatched(db, ENTITY_TABLES);
    assert r.None? <==> TableMatches(db, PATIENT_INFO) && TableMatches(db, NOTES) by {
      if TableMatches(db, PATIENT_INFO) && TableMatches(db, NOTES) {
        forall i | 0 <= i < |ENTITY_TABLES| ensures TableMatches(db, ENTITY_TABLES[i]) {
          assert i == 0 || i == 1;
        }
      } else {
        assert !TableMatches(db, ENTITY_TABLES[0]) || !TableMatches(db, ENTITY_TABLES[1]);
      }
    }
    r
  }

  function Lift(r: Result<Tables, SqlError>): Result<Tables, OpenError> {
    match r
    case Success(t) => Success(t)
    case Failure(e) => Failure(SqlFailed(e))
  }

  /**
   * The tables after the first open of a file at `version`: a new file
   * (version 0) gets the entity tables; a file at version 4 is used as it
   * is; otherwise the chain of migrations runs and the result is checked;
   * when no chain exists, the entity tables are dropped and recreated empty.
   */
  function Opened(db: Tables, version: nat): (r: Result<Tables, OpenError>)
    ensures version != 0 && version != VERSION && r.Success? ==> FirstInvalidTable(r.value).None?
  {
    if version == 0 then Lift(ExecAll(db, CREATE_ALL_TABLES))
    else if version == VERSION then Success(db)
    else match FindMigrationPath(MIGRATIONS, version, VERSION)
      case None =>
        RecreateEffect(db);
        Lift(ExecAll(db, DROP_ALL_TABLES + CREATE_ALL_TABLES))
      case Some(path) =>
        match RunPath(db, path)
        case Failure(e) => Failure(SqlFailed(e))
        case Success(t) =>
          if FirstInvalidTable(t).Some? then Failure(MigrationNotHandled(FirstInvalidTable(t).value))
          else Success(t)
  }

  /** Both entity tables dropped and created again empty; every other table kept. */
  function Recreated(db: Tables): Tables {
    (db - {PATIENT_INFO, NOTES})[PATIENT_INFO := Table(PATIENT_INFO_COLUMNS, [])][NOTES := Table(NOTES_COLUMNS, [])]
  }

  /** The destructive fallback's statements cannot fail and leave `Recreated(db)`. */
  lemma RecreateEffect(db: Tables)
    ensures ExecAll(db, DROP_ALL_TABLES + CREATE_ALL_TABLES) == Success(Recreated(db))
  {
    var stmts := DROP_ALL_TABLES + CREATE_ALL_TABLES;
    var db2 := db - {PATIENT_INFO} - {NOTES};
    var db3 := db2[PATIENT_INFO := Table(PATIENT_INFO_COLUMNS, [])];
    var db4 := db3[NOTES := Table(NOTES_COLUMNS, [])];
    ExecAllFrom(db, stmts, 0);
    ExecAllFrom(db - {PATIENT_INFO}, stmts, 1);
    ExecAllFrom(db2, stmts, 2);
    ExecAllFrom(db3, stmts, 3);
    assert stmts[0..] == stmts && stmts[4..] == [];
    assert ExecAll(db, stmts) == Success(db4);
    assert db2 == db - {PATIENT_INFO, NOTES};
  }

  /**
   * A file at a version with no registered path (any version above 4) is
   * not rejected: both entity tables come back empty with the current
   * columns, and every other table is kept.
   */
  lemma DestructiveFallbackRecreatesEmpty(db: Tables, v: nat)
    requires v > VERSION
    ensures Opened(db, v) ==
      Success((db - {PATIENT_INFO, NOTES})[PATIENT_INFO := Table(PATIENT_INFO_COLUMNS, [])]
                                          [NOTES := Table(NOTES_COLUMNS, [])])
  {
    NoPathFromNewerVersion(v);
    RecreateEffect(db);
  }

  /** Both entity tables there with their entity's columns pass Room's check. */
  lemma EntityTablesPass(db: Tables)
    requires PATIENT_INFO in db && ColumnSet(db[PATIENT_INFO].columns) == ColumnSet(PATIENT_INFO_COLUMNS)
    requires NOTES in db && ColumnSet(db[NOTES].columns) == ColumnSet(NOTES_COLUMNS)
    ensures FirstInvalidTable(db).None?
  {
    assert TableMatches(db, PATIENT_INFO) && TableMatches(db, NOTES);
  }

  /**
   * A version-3 file with `patient_info(id, weight, height)` and
   * `notes(id, noteText)` opens by running MIGRATION_3_4 alone, and Room's
   * check accepts the result.
   */
  lemma OpenFromVersion3(db: Tables)
    requires PATIENT_INFO in db && ColumnSet(db[PATIENT_INFO].columns) == ColumnSet(PATIENT_INFO_COLUMNS)
    requires NOTES in db && ColumnSet(db[NOTES].columns) == ColumnSet(NOTES_V3_COLUMNS)
    requires NOTES_NEW !in db
    ensures Opened(db, 3) == Lift(ExecAll(db, MIGRATION_3_4.statements))
    ensures Opened(db, 3).Success?
  {
    assert FindMigrationPath(MIGRATIONS, 3, VERSION) == Some([MIGRATION_3_4]) by {
      PathsToCurrentVersion(3);
      assert MIGRATIONS[2..] == [MIGRATION_3_4];
    }
    assert ExecAll(db, MIGRATION_3_4.statements).Success? by {
      assert "id" in ColumnSet(NOTES_V3_COLUMNS) && "noteText" in ColumnSet(NOTES_V3_COLUMNS);
      Migration3To4Effect(db);
    }
    var t := ExecAll(db, MIGRATION_3_4.statements).value;
    assert RunPath(db, [MIGRATION_3_4]) == Success(t) by {
      assert [MIGRATION_3_4][..0] == [];
    }
    assert FirstInvalidTable(t).None? by {
      assert "id" in ColumnSet(NOTES_V3_COLUMNS) && "noteText" in ColumnSet(NOTES_V3_COLUMNS);
      Migration3To4Effect(db);
      EntityTablesPass(t);
    }
  }

  /** A version-1 file with no tables opens with both entity tables, empty, in their current form. */
  lemma OpenEmptyVersion1()
    ensures Opened(map[], 1) ==
      Success(map[PATIENT_INFO := Table(PATIENT_INFO_COLUMNS, []), NOTES := Table(NOTES_COLUMNS, [])])
  {
    var db1: Tables := map[PATIENT_INFO := Table(PATIENT_INFO_COLUMNS, [])];
    var db2 := db1[NOTES := Table(NOTES_V3_COLUMNS, [])];
    var t := map[PATIENT_INFO := Table(PATIENT_INFO_COLUMNS, []), NOTES := Table(NOTES_COLUMNS, [])];
    assert ExecAll(db2, MIGRATION_3_4.statements) == Success(t) by {
      assert "id" in db2[NOTES].columns && "noteText" in db2[NOTES].columns;
      Migration3To4Effect(db2);
      var r := ExecAll(db2, MIGRATION_3_4.statements).value;
      assert r[NOTES].rows == [];
      assert r == t;
    }
    assert RunPath(map[], MIGRATIONS) == Success(t) by {
      Migration1To2Effect(map[]);
      Migration2To3Effect(db1);
      RunPathSteps(map[], db1, db2, t);
    }
    assert FindMigrationPath(MIGRATIONS, 1, VERSION) == Some(MIGRATIONS) by {
      PathsToCurrentVersion(1);
      assert MIGRATIONS[0..] == MIGRATIONS;
    }
    assert FirstInvalidTable(t).None? by { EntityTablesPass(t); }
  }

  /** Running the three registered migrations is running each in turn. */
  lemma RunPathSteps(db0: Tables, db1: Tables, db2: Tables, db3: Tables)
    requires ExecAll(db0, MIGRATION_1_2.statements) == Success(db1)
    requires ExecAll(db1, MIGRATION_2_3.statements) == Success(db2)
    requires ExecAll(db2, MIGRATION_3_4.statements) == Success(db3)
    ensures RunPath(db0, MIGRATIONS) == Success(db3)
  {
    var p := MIGRATIONS;
    assert p[..1][..0] == [];
    assert RunPath(db0, p[..1]) == Success(db1);
    assert p[..2][..1] == p[..1];
    assert RunPath(db0, p[..2]) == Success(db2);
    assert p[..2] == p[..|p| - 1];
  }

  // ---------------------------------------------------------------------
  // The imperative side: migrate(), Room's first open, getDatabase
  // ---------------------------------------------------------------------

  /** What a run of statements yields, read off the error slot. */
  function Outcome(tables: Tables, err: Option<SqlError>): Result<Tables, SqlError> {
    if err.Some? then Failure(err.value) else Success(tables)
  }

  /** MIGRATION_1_2.migrate. */
  method Migrate1To2(database: SupportSqliteDatabase) returns (err: Option<SqlError>)
    modifies database`tables
    ensures Outcome(database.tables, err) == ExecAll(old(database.tables), MIGRATION_1_2.statements)
  {
    err := database.ExecSql(CREATE_PATIENT_INFO);
  }

  /** MIGRATION_2_3.migrate. */
  method Migrate2To3(database: SupportSqliteDatabase) returns (err: Option<SqlError>)
    modifies database`tables
    ensures Outcome(database.tables, err) == ExecAll(old(database.tables), MIGRATION_2_3.statements)
  {
    err := database.ExecSql(CREATE_NOTES_V3);
  }

  /** MIGRATION_3_4.migrate: create, copy, drop, rename; an error stops it. */
  method Migrate3To4(database: SupportSqliteDatabase) returns (err: Option<SqlError>)
    modifies database`tables
    ensures Outcome(database.tables, err) == ExecAll(old(database.tables), MIGRATION_3_4.statements)
  {
    ghost var s, before := MIGRATION_3_4.statements, database.tables;
    assert s[0..] == s;
    ExecAllFrom(database.tables, s, 0);
    err := database.ExecSql(CREATE_NOTES_NEW);
    if err.Some? { return; }
    ExecAllFrom(database.tables, s, 1);
    err := database.ExecSql(COPY_NOTES);
    if err.Some? { return; }
    ExecAllFrom(database.tables, s, 2);
    err := database.ExecSql(DROP_NOTES);
    if err.Some? { return; }
    ExecAllFrom(database.tables, s, 3);
    err := database.ExecSql(RENAME_NOTES_NEW);
    assert s[4..] == [];
  }

  /** `migration.migrate(db)` for one of the registered migrations. */
  method RunMigration(m: Migration, database: SupportSqliteDatabase) returns (err: Option<SqlError>)
    requires m in MIGRATIONS
    modifies database`tables
    ensures Outcome(database.tables, err) == ExecAll(old(database.tables), m.statements)
  {
    if m == MIGRATION_1_2 {
      err := Migrate1To2(database);
    } else if m == MIGRATION_2_3 {
      err := Migrate2To3(database);
    } else {
      err := Migrate3To4(database);
    }
  }

  /** The migrations of a path are all registered ones. */
  lemma {:induction false} PathUsesRegistered(path: seq<Migration>, start: nat, end: nat)
    requires IsPath(path, MIGRATIONS, start, end)
    ensures forall i :: 0 <= i < |path| ==> path[i] in MIGRATIONS
    decreases |path|
  {
    if path != [] {
      PathUsesRegistered(path[1..], path[0].endVersion, end);
      assert forall i :: 1 <= i < |path| ==> path[i] == path[1..][i - 1];
    }
  }

  /** Room's generated `createAllTables`. */
  method CreateAllTables(database: SupportSqliteDatabase) returns (err: Option<SqlError>)
    modifies database`tables
    ensures Outcome(database.tables, err) == ExecAll(old(database.tables), CREATE_ALL_TABLES)
  {
    ghost var s := CREATE_ALL_TABLES;
    assert s[0..] == s;
    ExecAllFrom(database.tables, s, 0);
    err := database.ExecSql(CREATE_PATIENT_INFO);
    if err.Some? { return; }
    ExecAllFrom(database.tables, s, 1);
    err := database.ExecSql(CREATE_NOTES);
    assert s[2..] == [];
  }

  /** Room's generated `dropAllTables`. */
  method DropAllTables(database: SupportSqliteDatabase) returns (err: Option<SqlError>)
    modifies database`tables
    ensures Outcome(database.tables, err) == ExecAll(old(database.tables), DROP_ALL_TABLES)
  {
    ghost var s := DROP_ALL_TABLES;
    assert s[0..] == s;
    ExecAllFrom(database.tables, s, 0);
    err := database.ExecSql(DropTableIfExists(PATIENT_INFO));
    if err.Some? { return; }
    ExecAllFrom(database.tables, s, 1);
    err := database.ExecSql(DropTableIfExists(NOTES));
    assert s[2..] == [];
  }

  /** The destructive fallback: drop the entity tables, then create them again. */
  method RecreateAllTables(database: SupportSqliteDatabase) returns (err: Option<SqlError>)
    modifies database`tables
    ensures Outcome(database.tables, err) == ExecAll(old(database.tables), DROP_ALL_TABLES + CREATE_ALL_TABLES)
  {
    ExecAllAppend(database.tables, DROP_ALL_TABLES, CREATE_ALL_TABLES);
    err := DropAllTables(database);
    if err.None? {
      err := CreateAllTables(database);
    }
  }

  /** The migrations of `path`, one after the other; the first error stops the run. */
  method RunMigrations(path: seq<Migration>, database: SupportSqliteDatabase) returns (err: Option<SqlError>)
    requires forall i :: 0 <= i < |path| ==> path[i] in MIGRATIONS
    modifies database`tables
    ensures Outcome(database.tables, err) == RunPath(old(database.tables), path)
  {
    ghost var before := database.tables;
    err := None;
    var i := 0;
    while i < |path|
      invariant 0 <= i <= |path|
      invariant err == None
      invariant RunPath(before, path[..i]) == Success(database.tables)
    {
      assert path[..i + 1][..i] == path[..i];
      err := RunMigration(path[i], database);
      if err.Some? {
        assert RunPath(before, path[..i + 1]) == Failure(err.value);
        RunPathStopsAtFailure(before, path, i + 1, err.value);
        return;
      }
      i := i + 1;
    }
    assert path[..|path|] == path;
  }

  /** Once a prefix of the path fails, the whole path fails with the same error. */
  lemma {:induction false} RunPathStopsAtFailure(db: Tables, path: seq<Migration>, k: nat, e: SqlError)
    requires k <= |path|
    requires RunPath(db, path[..k]) == Failure(e)
    ensures RunPath(db, path) == Failure(e)
    decreases |path| - k
  {
    if k < |path| {
      assert path[..k + 1][..k] == path[..k];
      RunPathStopsAtFailure(db, path, k + 1, e);
    } else {
      assert path[..k] == path;
    }
  }

  /** The database object `Room.databaseBuilder(...).build()` returns. */
  class AppDatabase {
    /** The name the builder is given for the file. */
    const name: string
    /** The file of that name in the application's context. */
    const store: SupportSqliteDatabase

    constructor (store: SupportSqliteDatabase)
      ensures name == DATABASE_NAME && this.store == store
    {
      name := DATABASE_NAME;
      this.store := store;
    }

    /**
     * The first open, inside one transaction: on success the file holds
     * `Opened(...)` at version 4; on any error it is rolled back unchanged.
     */
    method Open() returns (err: Option<OpenError>)
      modifies store
      ensures var r := Opened(old(store.tables), old(store.version));
        && (r.Success? ==> err == None && store.tables == r.value && store.version == VERSION)
        && (r.Failure? ==> err == Some(r.error) && store.tables == old(store.tables) && store.version == old(store.version))
    {
      var saved, from := store.tables, store.version;
      if from == VERSION {
        return None;
      }
      var result: Result<Tables, OpenError>;
      if from == 0 {
        var sqlErr := CreateAllTables(store);
        result := Lift(Outcome(store.tables, sqlErr));
      } else {
        var path := FindMigrationPath(MIGRATIONS, from, VERSION);
        if path.None? {
          var sqlErr := RecreateAllTables(store);
          result := Lift(Outcome(store.tables, sqlErr));
        } else {
          PathUsesRegistered(path.value, from, VERSION);
          var sqlErr := RunMigrations(path.value, store);
          if sqlErr.Some? {
            result := Failure(SqlFailed(sqlErr.value));
          } else {
            var invalid := FirstInvalidTable(store.tables);
            if invalid.Some? {
              result := Failure(MigrationNotHandled(invalid.value));
            } else {
              result := Success(store.tables);
            }
          }
        }
      }
      if result.Failure? {
        store.tables := saved;
        err := Some(result.error);
      } else {
        store.version := VERSION;
        err := None;
      }
    }
  }

  /** The companion object of AppDatabase, holding `INSTANCE`. */
  class AppDatabaseHolder {
    var instance: AppDatabase?

    constructor ()
      ensures instance == null
    {
      instance := null;
    }

    /**
     * `getDatabase`: the held instance when there is one; otherwise a new
     * database object for `store`, which becomes the held instance. Building
     * the object does not touch the file.
     */
    method GetDatabase(store: SupportSqliteDatabase) returns (db: AppDatabase)
      modifies this
      ensures instance == db
      ensures old(instance) != null ==> db == old(instance)
      ensures old(instance) == null ==> fresh(db) && db.store == store
    {
      if instance != null {
        return instance;
      }
      db := new AppDatabase(store);
      instance := db;
    }
  }

  /** Two calls in a row hand out the same object, whatever store the second names. */
  method GetDatabaseTwice(holder: AppDatabaseHolder, first: SupportSqliteDatabase, second: SupportSqliteDatabase)
    returns (a: AppDatabase, b: AppDatabase)
    modifies holder
    ensures a == b && holder.instance == a
    ensures old(holder.instance) == null ==> a.store == first
  {
    a := holder.GetDatabase(first);
    b := holder.GetDatabase(second);
  }
}
