/** Table shapes, migration operations and what an operation does to a schema.
  * Models crates/mads-cli/src/database/schema.rs and the `Operation` type of
  * crates/mads-cli/src/database/diff.rs.
  */
module Schema {
  import opened Wrappers
  import opened Orders

  datatype TableName = TableName(schema: string, table: string)

  predicate TableLe(a: TableName, b: TableName) {
    if a.schema == b.schema then StringLe(a.table, b.table) else StringLe(a.schema, b.schema)
  }

  lemma TableLeIsTotalOrder()
    ensures TotalOrder(TableLe)
  {
    StringLeIsTotalOrder();
    forall a, b, c | TableLe(a, b) && TableLe(b, c) ensures TableLe(a, c) {
      if a.schema != b.schema && b.schema != c.schema {
        assert StringLe(a.schema, c.schema);
        assert a.schema == c.schema ==> a.schema == b.schema;
      }
    }
  }

  type u32 = n: nat | n < 0x1_0000_0000

  datatype PgType =
    | Bool | SmallInt | Integer | BigInt | Real | DoublePrecision | Numeric
    | Text | VarChar(length: Option<u32>) | Char(length: Option<u32>) | Bytea
    | Date | Time | Timestamp | TimestampWithTimeZone
    | Json | Jsonb | Uuid | Inet | Cidr | MacAddr
    | Array(element: PgType)

  datatype Column = Column(name: string, sqlType: PgType, nullable: bool, ordinal: nat)

  datatype Table = Table(name: TableName, columns: seq<Column>, primaryKey: seq<string>)

  type Tables = map<TableName, Table>

  datatype Operation =
    | CreateTable(declared: Table)
    | DropTable(dropped: Table)
    | AddColumn(table: TableName, added: Column)
    | DropColumn(table: TableName, removed: Column)
    | AlterType(table: TableName, column: string, from: PgType, to: PgType)
    | SetNotNull(table: TableName, column: string)
    | DropNotNull(table: TableName, column: string)
  {
    function Inverse(): Operation {
      match this
      case CreateTable(t) => DropTable(t)
      case DropTable(t) => CreateTable(t)
      case AddColumn(t, c) => DropColumn(t, c)
      case DropColumn(t, c) => AddColumn(t, c)
      case AlterType(t, c, from, to) => AlterType(t, c, to, from)
      case SetNotNull(t, c) => DropNotNull(t, c)
      case DropNotNull(t, c) => SetNotNull(t, c)
    }
  }

  /** The columns of a table by name; a repeated name keeps its last column. */
  function ColumnsByName(columns: seq<Column>): (r: map<string, Column>)
    ensures forall c :: c in columns ==> c.name in r
    ensures forall name :: name in r ==> r[name] in columns && r[name].name == name
  {
    if columns == [] then map[]
    else ColumnsByName(columns[..|columns| - 1])[columns[|columns| - 1].name := columns[|columns| - 1]]
  }

  predicate DistinctNames(columns: seq<Column>) {
    forall i, j :: 0 <= i < j < |columns| ==> columns[i].name != columns[j].name
  }

  /** What a database demands of a table: its columns are named apart, and its
    * primary key names columns it has, each once.
    */
  predicate Declarable(t: Table) {
    && DistinctNames(t.columns)
    && (forall k :: k in t.primaryKey ==> k in ColumnsByName(t.columns))
    && (forall i, j :: 0 <= i < j < |t.primaryKey| ==> t.primaryKey[i] != t.primaryKey[j])
  }

  /** A live table is filed under its name, and a database holds it. */
  ghost predicate ValidTable(name: TableName, t: Table) {
    t.name == name && Declarable(t)
  }

  ghost predicate ValidTables(tables: Tables) {
    forall name :: name in tables ==> ValidTable(name, tables[name])
  }

  /** What the reader of desired tables guarantees (crates/mads-cli/src/database/schema.rs:356-478):
    * the primary key names declared columns. It does not refuse a repeated name.
    */
  ghost predicate FiledTable(name: TableName, t: Table) {
    t.name == name && forall k :: k in t.primaryKey ==> k in ColumnsByName(t.columns)
  }

  ghost predicate FiledTables(tables: Tables) {
    forall name :: name in tables ==> FiledTable(name, tables[name])
  }

  lemma ColumnsByNameHolds(name: TableName, t: Table, c: Column)
    requires ValidTable(name, t) && c in t.columns
    ensures c.name in ColumnsByName(t.columns) && ColumnsByName(t.columns)[c.name] == c
  {
    var d := ColumnsByName(t.columns)[c.name];
    var i :| 0 <= i < |t.columns| && t.columns[i] == c;
    var j :| 0 <= j < |t.columns| && t.columns[j] == d;
  }

  // ----- the meaning of an operation -----

  datatype ColumnShape = ColumnShape(sqlType: PgType, nullable: bool)

  datatype TableShape = TableShape(columns: map<string, ColumnShape>, primaryKey: seq<string>)

  type SchemaShape = map<TableName, TableShape>

  function ShapeOfColumn(c: Column): ColumnShape { ColumnShape(c.sqlType, c.nullable) }

  function ShapeOfTable(t: Table): TableShape {
    var columns := ColumnsByName(t.columns);
    TableShape(map name | name in columns :: ShapeOfColumn(columns[name]), t.primaryKey)
  }

  function ShapeOf(tables: Tables): SchemaShape {
    map name | name in tables :: ShapeOfTable(tables[name])
  }

  ghost predicate ValidShape(s: SchemaShape) {
    forall name, k :: name in s && k in s[name].primaryKey ==> k in s[name].columns
  }

  predicate HasColumn(s: SchemaShape, table: TableName, column: string) {
    table in s && column in s[table].columns
  }

  function WithColumn(s: SchemaShape, table: TableName, column: string, shape: ColumnShape): SchemaShape
    requires table in s
  {
    s[table := s[table].(columns := s[table].columns[column := shape])]
  }

  function WithoutColumn(s: SchemaShape, table: TableName, column: string): SchemaShape
    requires table in s
  {
    s[table := s[table].(columns := s[table].columns - {column})]
  }

  /** Applies one operation, or `None` where a database at `s` would refuse it
    * or where what the operation recorded about `s` is not so.
    */
  function Apply(op: Operation, s: SchemaShape): Option<SchemaShape> {
    match op
    case CreateTable(t) =>
      if t.name !in s && Declarable(t) then Some(s[t.name := ShapeOfTable(t)]) else None
    case DropTable(t) =>
      if t.name in s && s[t.name] == ShapeOfTable(t) && Declarable(t) then Some(s - {t.name}) else None
    case AddColumn(table, c) =>
      if table in s && c.name !in s[table].columns
      then Some(WithColumn(s, table, c.name, ShapeOfColumn(c))) else None
    case DropColumn(table, c) =>
      if HasColumn(s, table, c.name) && s[table].columns[c.name] == ShapeOfColumn(c)
         && c.name !in s[table].primaryKey
      then Some(WithoutColumn(s, table, c.name)) else None
    case AlterType(table, c, from, to) =>
      if HasColumn(s, table, c) && s[table].columns[c].sqlType == from
      then Some(WithColumn(s, table, c, s[table].columns[c].(sqlType := to))) else None
    case SetNotNull(table, c) =>
      if HasColumn(s, table, c) && s[table].columns[c].nullable
      then Some(WithColumn(s, table, c, s[table].columns[c].(nullable := false))) else None
    case DropNotNull(table, c) =>
      if HasColumn(s, table, c) && !s[table].columns[c].nullable
      then Some(WithColumn(s, table, c, s[table].columns[c].(nullable := true))) else None
  }

  /** Applies operations in order; `None` as soon as one does not apply. */
  function Run(ops: seq<Operation>, s: SchemaShape): Option<SchemaShape> {
    if ops == [] then Some(s)
    else
      var next := Apply(ops[0], s);
      if next.None? then None else Run(ops[1..], next.value)
  }

  lemma {:induction false} RunConcat(a: seq<Operation>, b: seq<Operation>, s: SchemaShape)
    ensures Run(a + b, s) == if Run(a, s).None? then None else Run(b, Run(a, s).value)
  {
    if a == [] {
      assert a + b == b;
    } else {
      assert (a + b)[0] == a[0] && (a + b)[1..] == a[1..] + b;
      if Apply(a[0], s).Some? { RunConcat(a[1..], b, Apply(a[0], s).value); }
    }
  }

  lemma ApplyKeepsValid(op: Operation, s: SchemaShape)
    requires ValidShape(s) && Apply(op, s).Some?
    ensures ValidShape(Apply(op, s).value)
  {}

  lemma {:induction false} RunKeepsValid(ops: seq<Operation>, s: SchemaShape)
    requires ValidShape(s) && Run(ops, s).Some?
    ensures ValidShape(Run(ops, s).value)
  {
    if ops != [] {
      ApplyKeepsValid(ops[0], s);
      RunKeepsValid(ops[1..], Apply(ops[0], s).value);
    }
  }

  /** One operation is undone by its inverse, wherever it applied. */
  lemma InverseUndoes(op: Operation, s: SchemaShape)
    requires ValidShape(s) && Apply(op, s).Some?
    ensures Apply(op.Inverse(), Apply(op, s).value) == Some(s)
  {
    var s' := Apply(op, s).value;
    match op
    case CreateTable(t) =>
      assert s' - {t.name} == s;
    case DropTable(t) =>
      assert s'[t.name := ShapeOfTable(t)] == s;
    case AddColumn(table, c) =>
      assert s'[table].columns - {c.name} == s[table].columns;
      assert WithoutColumn(s', table, c.name) == s;
    case DropColumn(table, c) =>
      assert s'[table].columns[c.name := ShapeOfColumn(c)] == s[table].columns;
      assert WithColumn(s', table, c.name, ShapeOfColumn(c)) == s;
    case AlterType(table, c, _, _) =>
      assert s'[table].columns[c := s[table].columns[c]] == s[table].columns;
      assert WithColumn(s', table, c, s[table].columns[c]) == s;
    case SetNotNull(table, c) =>
      assert s'[table].columns[c := s[table].columns[c]] == s[table].columns;
      assert WithColumn(s', table, c, s[table].columns[c]) == s;
    case DropNotNull(table, c) =>
      assert s'[table].columns[c := s[table].columns[c]] == s[table].columns;
      assert WithColumn(s', table, c, s[table].columns[c]) == s;
  }

  /** The inverses of `ops`, last operation first. */
  function Inverses(ops: seq<Operation>): (r: seq<Operation>)
    ensures |r| == |ops|
    ensures forall i :: 0 <= i < |ops| ==> r[i] == ops[|ops| - 1 - i].Inverse()
  {
    if ops == [] then [] else Inverses(ops[1..]) + [ops[0].Inverse()]
  }

  lemma {:induction false} InversesUndo(ops: seq<Operation>, s: SchemaShape)
    requires ValidShape(s) && Run(ops, s).Some?
    ensures Run(Inverses(ops), Run(ops, s).value) == Some(s)
  {
    if ops != [] {
      var next := Apply(ops[0], s).value;
      ApplyKeepsValid(ops[0], s);
      InversesUndo(ops[1..], next);
      RunConcat(Inverses(ops[1..]), [ops[0].Inverse()], Run(ops, s).value);
      InverseUndoes(ops[0], s);
      assert Run([ops[0].Inverse()], next) == Some(s) by {
        assert [ops[0].Inverse()][1..] == [];
      }
    }
  }

  /** Undoing retraces the run: once the last operations are undone the schema is
    * what it was before them.
    */
  lemma InversesRetrace(ops: seq<Operation>, s: SchemaShape, undone: nat, kept: nat)
    requires ValidShape(s) && Run(ops, s).Some? && undone + kept == |ops|
    ensures Run(ops[..kept], s).Some?
    ensures Run(Inverses(ops)[..undone], Run(ops, s).value) == Run(ops[..kept], s)
  {
    var early, late := ops[..kept], ops[kept..];
    assert early + late == ops;
    RunConcat(early, late, s);
    var middle := Run(early, s).value;
    RunKeepsValid(early, s);
    InversesUndo(late, middle);
    assert Inverses(late) == Inverses(ops)[..undone];
  }
}
