/** Planning a migration between two schemas.
  * Models `plan_tables_ref` and its rejections in
  * crates/mads-cli/src/database/diff.rs, warnings apart.
  */
module DiffPlan {
  import opened Wrappers
  import opened Orders
  import opened Schema
  import opened DropOrder

  datatype MigrationPlan = MigrationPlan(up: seq<Operation>, down: seq<Operation>)

  // ----- rejections -----

  function DroppedTables(live: Tables, desired: Tables): set<TableName> {
    live.Keys - desired.Keys
  }

  function FirstMissing(key: seq<string>, columns: map<string, Column>): Option<string> {
    if key == [] then None
    else if key[0] !in columns then Some(key[0])
    else FirstMissing(key[1..], columns)
  }

  function PrimaryKeyError(name: TableName, live: Tables, desired: Tables): Option<DiffError>
    requires name in live
  {
    if name !in desired then None
    else if live[name].primaryKey != desired[name].primaryKey then Some(PrimaryKeyChanged(name))
    else
      var missing := FirstMissing(live[name].primaryKey, ColumnsByName(desired[name].columns));
      if missing.None? then None else Some(PrimaryKeyColumnDropped(name, missing.value))
  }

  function FirstPrimaryKeyError(names: seq<TableName>, live: Tables, desired: Tables): Option<DiffError>
    requires forall n :: n in names ==> n in live
  {
    if names == [] then None
    else
      var error := PrimaryKeyError(names[0], live, desired);
      if error.Some? then error else FirstPrimaryKeyError(names[1..], live, desired)
  }

  function FirstRetainedReference(dropped: set<TableName>, foreignKeys: seq<ForeignKey>): Option<DiffError> {
    if foreignKeys == [] then None
    else if foreignKeys[0].parent in dropped && foreignKeys[0].child !in dropped
    then Some(RetainedReference(foreignKeys[0]))
    else FirstRetainedReference(dropped, foreignKeys[1..])
  }

  function Names(tables: Tables): (r: seq<TableName>)
    ensures forall n :: n in r <==> n in tables
    ensures Distinct(r)
  {
    TableLeIsTotalOrder();
    SortedSet(TableLe, tables.Keys)
  }

  // ----- the six phases -----

  /** The phases that work inside retained tables, in the order they run. */
  datatype Phase = Adding | Retyping | Renulling | Removing

  predicate ByOrdinal(a: Column, b: Column) {
    a.ordinal < b.ordinal || (a.ordinal == b.ordinal && StringLe(a.name, b.name))
  }

  predicate ByOrdinalDescending(a: Column, b: Column) { ByOrdinal(b, a) }

  function Only(columns: seq<Column>, others: map<string, Column>, shared: bool): (r: seq<Column>)
    ensures forall c :: c in r <==> c in columns && (c.name in others) == shared
  {
    if columns == [] then []
    else (if (columns[0].name in others) == shared then [columns[0]] else []) + Only(columns[1..], others, shared)
  }

  /** The columns a retained table gains, as declared. */
  function Gained(live: Table, desired: Table): seq<Column> {
    Only(desired.columns, ColumnsByName(live.columns), false)
  }

  /** No new table repeats the name of a column or of a key column, and no retained
    * table gains two columns of one name. This can be seen before planning.
    */
  predicate NamesAreApart(live: Tables, desired: Tables) {
    && (forall n :: n in desired && n !in live ==> Declarable(desired[n]))
    && (forall n :: n in desired && n in live ==> DistinctNames(Gained(live[n], desired[n])))
  }

  /** The columns of a retained table a phase looks at, in the order it does. */
  function PhaseColumns(phase: Phase, live: Table, desired: Table): seq<Column> {
    match phase
    case Adding => Sort(ByOrdinal, Only(desired.columns, ColumnsByName(live.columns), false))
    case Retyping => Sort(ByOrdinal, Only(live.columns, ColumnsByName(desired.columns), true))
    case Renulling => Sort(ByOrdinal, Only(live.columns, ColumnsByName(desired.columns), true))
    case Removing => Sort(ByOrdinalDescending, Only(live.columns, ColumnsByName(desired.columns), false))
  }

  function ColumnOps(phase: Phase, name: TableName, desired: map<string, Column>, c: Column): seq<Operation>
    requires phase.Retyping? || phase.Renulling? ==> c.name in desired
  {
    match phase
    case Adding => [AddColumn(name, c)]
    case Retyping =>
      if c.sqlType != desired[c.name].sqlType
      then [AlterType(name, c.name, c.sqlType, desired[c.name].sqlType)] else []
    case Renulling =>
      if c.nullable == desired[c.name].nullable then []
      else if desired[c.name].nullable then [DropNotNull(name, c.name)]
      else [SetNotNull(name, c.name)]
    case Removing => [DropColumn(name, c)]
  }

  function ColumnsOps(phase: Phase, name: TableName, desired: map<string, Column>, columns: seq<Column>): seq<Operation>
    requires phase.Retyping? || phase.Renulling? ==> forall c :: c in columns ==> c.name in desired
  {
    if columns == [] then []
    else ColumnOps(phase, name, desired, columns[0]) + ColumnsOps(phase, name, desired, columns[1..])
  }

  lemma PhaseColumnsMembers(phase: Phase, live: Table, desired: Table)
    ensures forall c :: c in PhaseColumns(phase, live, desired) <==>
              match phase
              case Adding => c in desired.columns && c.name !in ColumnsByName(live.columns)
              case Retyping => c in live.columns && c.name in ColumnsByName(desired.columns)
              case Renulling => c in live.columns && c.name in ColumnsByName(desired.columns)
              case Removing => c in live.columns && c.name !in ColumnsByName(desired.columns)
  {
    match phase
    case Adding =>
      SameElements(PhaseColumns(phase, live, desired), Only(desired.columns, ColumnsByName(live.columns), false));
    case Retyping =>
      SameElements(PhaseColumns(phase, live, desired), Only(live.columns, ColumnsByName(desired.columns), true));
    case Renulling =>
      SameElements(PhaseColumns(phase, live, desired), Only(live.columns, ColumnsByName(desired.columns), true));
    case Removing =>
      SameElements(PhaseColumns(phase, live, desired), Only(live.columns, ColumnsByName(desired.columns), false));
  }

  function TableOps(phase: Phase, name: TableName, live: Table, desired: Table): seq<Operation> {
    PhaseColumnsMembers(phase, live, desired);
    ColumnsOps(phase, name, ColumnsByName(desired.columns), PhaseColumns(phase, live, desired))
  }

  function PhaseOps(phase: Phase, names: seq<TableName>, live: Tables, desired: Tables): seq<Operation> {
    if names == [] then []
    else
      (if names[0] in live && names[0] in desired
       then TableOps(phase, names[0], live[names[0]], desired[names[0]]) else [])
      + PhaseOps(phase, names[1..], live, desired)
  }

  function CreateOps(names: seq<TableName>, live: Tables, desired: Tables): seq<Operation>
    requires forall n :: n in names ==> n in desired
  {
    if names == [] then []
    else (if names[0] !in live then [CreateTable(desired[names[0]])] else []) + CreateOps(names[1..], live, desired)
  }

  function DropOps(order: seq<TableName>, live: Tables): (r: seq<Operation>)
    requires forall n :: n in order ==> n in live
    ensures |r| == |order|
    ensures forall i :: 0 <= i < |order| ==> r[i] == DropTable(live[order[i]])
  {
    if order == [] then [] else [DropTable(live[order[0]])] + DropOps(order[1..], live)
  }

  function ColumnPhases(live: Tables, desired: Tables): seq<Operation> {
    PhaseOps(Adding, Names(desired), live, desired)
    + PhaseOps(Retyping, Names(live), live, desired)
    + PhaseOps(Renulling, Names(live), live, desired)
    + PhaseOps(Removing, Names(live), live, desired)
  }

  function UpOps(order: seq<TableName>, live: Tables, desired: Tables): seq<Operation>
    requires forall n :: n in order ==> n in live
  {
    CreateOps(Names(desired), live, desired) + ColumnPhases(live, desired) + DropOps(order, live)
  }

  lemma OrderIsLive(live: Tables, desired: Tables, foreignKeys: seq<ForeignKey>)
    ensures var order := DroppedOrder(DroppedTables(live, desired), foreignKeys);
            order.Success? ==> forall n :: n in order.value <==> n in DroppedTables(live, desired)
  {
    var dropped := DroppedTables(live, desired);
    if DroppedOrder(dropped, foreignKeys).Success? {
      GreedyIsChildFirst(dropped, DroppedEdges(dropped, foreignKeys));
    }
  }

  function Plan(live: Tables, foreignKeys: seq<ForeignKey>, desired: Tables): Result<MigrationPlan, DiffError> {
    var dropped := DroppedTables(live, desired);
    var keyError := FirstPrimaryKeyError(Names(live), live, desired);
    var retained := FirstRetainedReference(dropped, foreignKeys);
    var order := DroppedOrder(dropped, foreignKeys);
    OrderIsLive(live, desired, foreignKeys);
    if keyError.Some? then Failure(keyError.value)
    else if retained.Some? then Failure(retained.value)
    else if order.Failure? then Failure(order.error)
    else
      var up := UpOps(order.value, live, desired);
      Success(MigrationPlan(up, Inverses(up)))
  }
}
