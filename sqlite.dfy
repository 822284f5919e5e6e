/**
 * The SQLite statements the schema migrations of AppDatabase.kt issue, over
 * a database seen as a map from table name to (columns, rows). Column
 * types, primary-key and NOT NULL constraints are not modelled.
 */
module Sqlite {
  import opened Wrappers

  datatype Value = Null | Integer(i: int) | Text(s: string)

  /** A row maps each column name of its table to a value. */
  type Row = map<string, Value>

  datatype Table = Table(columns: seq<string>, rows: seq<Row>)

  type Tables = map<string, Table>

  datatype SqlError =
    | NoSuchTable(table: string)
    | NoSuchColumn(column: string)
    | TableExists(table: string)
    | ValueCountMismatch

  datatype Expr = Column(name: string) | Literal(value: Value)

  datatype Statement =
    | CreateTableIfNotExists(table: string, columns: seq<string>)
    | DropTable(table: string)
    | DropTableIfExists(table: string)
    | RenameTable(from: string, to: string)
    /** INSERT INTO into (columns) SELECT select FROM from */
    | InsertSelect(into: string, columns: seq<string>, select: seq<Expr>, from: string)

  /** The value of a column in a row; NULL when the row lacks it. */
  function Get(row: Row, column: string): Value {
    if column in row then row[column] else Null
  }

  function Eval(e: Expr, row: Row): Value {
    match e
    case Column(c) => Get(row, c)
    case Literal(v) => v
  }

  /** The first name that is not among the available ones. */
  function FirstMissing(names: seq<string>, available: seq<string>): (r: Option<string>)
    ensures r.None? <==> forall i :: 0 <= i < |names| ==> names[i] in available
    ensures r.Some? ==> r.value in names && r.value !in available
  {
    if names == [] then None
    else if names[0] !in available then Some(names[0])
    else FirstMissing(names[1..], available)
  }

  /** The columns a SELECT list reads. */
  function ReadColumns(select: seq<Expr>): (r: seq<string>)
    ensures forall c :: c in r <==> Column(c) in select
  {
    if select == [] then []
    else match select[0]
      case Column(c) => [c] + ReadColumns(select[1..])
      case Literal(_) => ReadColumns(select[1..])
  }

  /** The value an INSERT gives column `c`: the expression listed for it, or NULL. */
  function ValueFor(c: string, columns: seq<string>, select: seq<Expr>, row: Row): (v: Value)
    requires |columns| == |select|
    ensures forall k :: 0 <= k < |columns| && columns[k] == c && c !in columns[..k] ==> v == Eval(select[k], row)
    ensures c !in columns ==> v == Null
  {
    if columns == [] then Null
    else if columns[0] == c then Eval(select[0], row)
    else
      assert forall k :: 1 <= k <= |columns| ==> columns[1..][..k - 1] == columns[..k][1..];
      ValueFor(c, columns[1..], select[1..], row)
  }

  /** The row INSERT ... SELECT builds in a table with columns `target` from one source row. */
  function InsertedRow(target: seq<string>, columns: seq<string>, select: seq<Expr>, row: Row): (r: Row)
    requires |columns| == |select|
    ensures r.Keys == set c | c in target
  {
    map c | c in target :: ValueFor(c, columns, select, row)
  }

  /** The tables a statement names. */
  function Named(s: Statement): set<string> {
    match s
    case CreateTableIfNotExists(t, _) => {t}
    case DropTable(t) => {t}
    case DropTableIfExists(t) => {t}
    case RenameTable(from, to) => {from, to}
    case InsertSelect(into, _, _, _) => {into}
  }

  /**
   * The effect of one statement, or the error SQLite raises for it. The
   * `IF [NOT] EXISTS` forms never fail, and a statement leaves every table
   * it does not name as it was.
   */
  function Exec(db: Tables, s: Statement): (r: Result<Tables, SqlError>)
    ensures s.CreateTableIfNotExists? || s.DropTableIfExists? ==> r.Success?
    ensures r.Success? ==> forall t :: t !in Named(s) ==> (t in r.value <==> t in db)
    ensures r.Success? ==> forall t :: t in db && t !in Named(s) ==> r.value[t] == db[t]
  {
    match s
    case CreateTableIfNotExists(t, columns) =>
      if t in db then Success(db) else Success(db[t := Table(columns, [])])
    case DropTable(t) =>
      if t !in db then Failure(NoSuchTable(t)) else Success(db - {t})
    case DropTableIfExists(t) =>
      Success(db - {t})
    case RenameTable(from, to) =>
      if from !in db then Failure(NoSuchTable(from))
      else if to in db then Failure(TableExists(to))
      else Success((db - {from})[to := db[from]])
    case InsertSelect(into, columns, select, from) =>
      if into !in db then Failure(NoSuchTable(into))
      else if FirstMissing(columns, db[into].columns).Some? then
        Failure(NoSuchColumn(FirstMissing(columns, db[into].columns).value))
      else if |columns| != |select| then Failure(ValueCountMismatch)
      else if from !in db then Failure(NoSuchTable(from))
      else if FirstMissing(ReadColumns(select), db[from].columns).Some? then
        Failure(NoSuchColumn(FirstMissing(ReadColumns(select), db[from].columns).value))
      else
        var target, source := db[into], db[from].rows;
        var copied := seq(|source|, i requires 0 <= i < |source| =>
                        InsertedRow(target.columns, columns, select, source[i]));
        Success(db[into := Table(target.columns, target.rows + copied)])
  }

  /** Statements run in order; the first error stops the run. */
  function ExecAll(db: Tables, statements: seq<Statement>): Result<Tables, SqlError>
    decreases |statements|
  {
    if statements == [] then Success(db)
    else match Exec(db, statements[0])
      case Failure(e) => Failure(e)
      case Success(next) => ExecAll(next, statements[1..])
  }

  /** Running the statements from position `k` on: statement `k`, then the ones after it. */
  lemma ExecAllFrom(db: Tables, statements: seq<Statement>, k: nat)
    requires k < |statements|
    ensures ExecAll(db, statements[k..]) ==
      match Exec(db, statements[k])
      case Failure(e) => Failure(e)
      case Success(next) => ExecAll(next, statements[k + 1..])
  {
    assert statements[k..][1..] == statements[k + 1..];
  }

  /** Running two lists of statements one after the other is running their concatenation. */
  lemma {:induction false} ExecAllAppend(db: Tables, a: seq<Statement>, b: seq<Statement>)
    ensures ExecAll(db, a + b) ==
      match ExecAll(db, a)
      case Failure(e) => Failure(e)
      case Success(next) => ExecAll(next, b)
    decreases |a|
  {
    if a == [] {
      assert a + b == b;
    } else {
      assert (a + b)[0] == a[0] && (a + b)[1..] == a[1..] + b;
      match Exec(db, a[0])
      case Failure(_) =>
      case Success(next) => ExecAllAppend(next, a[1..], b);
    }
  }

  /** The connection the migrations run on: the tables and PRAGMA user_version. */
  class SupportSqliteDatabase {
    var tables: Tables
    var version: nat

    constructor (tables: Tables, version: nat)
      ensures this.tables == tables && this.version == version
    {
      this.tables, this.version := tables, version;
    }

    /** `execSQL`: on success the statement's effect, on error nothing changes. */
    method ExecSql(s: Statement) returns (err: Option<SqlError>)
      modifies this`tables
      ensures Exec(old(tables), s).Success? ==> err == None && tables == Exec(old(tables), s).value
      ensures Exec(old(tables), s).Failure? ==> err == Some(Exec(old(tables), s).error) && tables == old(tables)
    {
      match Exec(tables, s)
      case Success(next) =>
        tables := next;
        err := None;
      case Failure(e) =>
        err := Some(e);
    }
  }
}
