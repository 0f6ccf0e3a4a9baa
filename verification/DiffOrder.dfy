/** The order of a plan's operations within a phase: by table, and within a table by
  * the position of the column, or against it when columns are removed.
  */
module DiffOrder {
  import opened Wrappers
  import opened Orders
  import opened Schema
  import opened Graphs
  import opened DropOrder
  import opened DiffPlan
  import opened DiffMeaning
  import opened DiffTheorems

  function TableOf(op: Operation): TableName {
    match op
    case CreateTable(t) => t.name
    case DropTable(t) => t.name
    case AddColumn(t, _) => t
    case DropColumn(t, _) => t
    case AlterType(t, _, _, _) => t
    case SetNotNull(t, _) => t
    case DropNotNull(t, _) => t
  }

  predicate IsColumnOperation(op: Operation) {
    !op.CreateTable? && !op.DropTable?
  }

  function ColumnOf(op: Operation): string
    requires IsColumnOperation(op)
  {
    match op
    case AddColumn(_, c) => c.name
    case DropColumn(_, c) => c.name
    case AlterType(_, c, _, _) => c
    case SetNotNull(_, c) => c
    case DropNotNull(_, c) => c
  }

  /** The position of the column: where it is declared if it is new, and where it stands otherwise. */
  function PlaceOf(live: Tables, op: Operation): nat
    requires IsColumnOperation(op)
  {
    match op
    case AddColumn(_, c) => c.ordinal
    case DropColumn(_, c) => c.ordinal
    case AlterType(t, c, _, _) => LivePlace(live, t, c)
    case SetNotNull(t, c) => LivePlace(live, t, c)
    case DropNotNull(t, c) => LivePlace(live, t, c)
  }

  function LivePlace(live: Tables, t: TableName, column: string): nat {
    if t in live && column in ColumnsByName(live[t].columns) then ColumnsByName(live[t].columns)[column].ordinal else 0
  }

  ghost predicate NamesFollow(a: TableName, b: TableName) {
    StringLe(a.schema, b.schema) && (a.schema == b.schema ==> StringLe(a.table, b.table))
  }

  ghost predicate PlacesFollow(live: Tables, a: Operation, b: Operation)
    requires IsColumnOperation(a) && IsColumnOperation(b)
  {
    PlaceOf(live, a) <= PlaceOf(live, b)
    && (PlaceOf(live, a) == PlaceOf(live, b) ==> StringLe(ColumnOf(a), ColumnOf(b)))
  }

  /** Two operations of one phase, `a` before `b`. */
  ghost predicate InTurn(live: Tables, a: Operation, b: Operation) {
    && NamesFollow(TableOf(a), TableOf(b))
    && (IsColumnOperation(a) && IsColumnOperation(b) && TableOf(a) == TableOf(b) ==>
          if a.DropColumn? then PlacesFollow(live, b, a) else PlacesFollow(live, a, b))
  }

  ghost predicate AllInTurn(live: Tables, ops: seq<Operation>) {
    forall i, j :: 0 <= i < j < |ops| && Rank(ops[i]) == Rank(ops[j]) && !ops[i].DropTable? ==>
      InTurn(live, ops[i], ops[j])
  }

  // ----- one table -----

  lemma ByOrdinalIsTotal()
    ensures TotalPreorder(ByOrdinal) && TotalPreorder(ByOrdinalDescending)
  {
    StringLeIsTotalOrder();
  }

  /** What an operation of a phase has of the column it comes from. */
  lemma FromColumn(phase: Phase, name: TableName, live: Tables, known: map<string, Column>, c: Column, op: Operation)
    requires phase.Retyping? || phase.Renulling? ==> c.name in known
    requires !phase.Adding? ==>
      name in live && c.name in ColumnsByName(live[name].columns) && ColumnsByName(live[name].columns)[c.name] == c
    requires op in ColumnOps(phase, name, known, c)
    ensures TableOf(op) == name && IsColumnOperation(op) && ColumnOf(op) == c.name && PlaceOf(live, op) == c.ordinal
    ensures op.DropColumn? <==> phase.Removing?
  {}

  ghost predicate KnownColumns(phase: Phase, name: TableName, live: Tables, known: map<string, Column>,
                               columns: seq<Column>)
  {
    && (phase.Retyping? || phase.Renulling? ==> forall c :: c in columns ==> c.name in known)
    && (!phase.Adding? ==> name in live && forall c :: c in columns ==>
          c.name in ColumnsByName(live[name].columns) && ColumnsByName(live[name].columns)[c.name] == c)
  }

  lemma {:induction false} OpHasColumn(phase: Phase, name: TableName, known: map<string, Column>, columns: seq<Column>,
                                       op: Operation) returns (c: Column)
    requires phase.Retyping? || phase.Renulling? ==> forall x :: x in columns ==> x.name in known
    requires op in ColumnsOps(phase, name, known, columns)
    ensures c in columns && op in ColumnOps(phase, name, known, c)
  {
    if op in ColumnOps(phase, name, known, columns[0]) {
      c := columns[0];
    } else {
      c := OpHasColumn(phase, name, known, columns[1..], op);
    }
  }

  ghost predicate InPhaseOrder(phase: Phase, columns: seq<Column>) {
    if phase.Removing? then Sorted(ByOrdinalDescending, columns) else Sorted(ByOrdinal, columns)
  }

  lemma TailInOrder(phase: Phase, columns: seq<Column>, c: Column)
    requires columns != [] && InPhaseOrder(phase, columns) && c in columns[1..]
    ensures InPhaseOrder(phase, columns[1..])
    ensures if phase.Removing? then ByOrdinal(c, columns[0]) else ByOrdinal(columns[0], c)
  {
    var k :| 1 <= k < |columns| && columns[k] == c;
    assert forall i :: 0 <= i < |columns[1..]| ==> columns[1..][i] == columns[i + 1];
    if phase.Removing? {
      assert ByOrdinalDescending(columns[0], columns[k]);
    } else {
      assert ByOrdinal(columns[0], columns[k]);
    }
  }

  lemma ColumnsInTurn(phase: Phase, name: TableName, live: Tables, known: map<string, Column>, c: Column, d: Column,
                      a: Operation, b: Operation)
    requires KnownColumns(phase, name, live, known, [c]) && KnownColumns(phase, name, live, known, [d])
    requires c in [c] && d in [d]
    requires a in ColumnOps(phase, name, known, c) && b in ColumnOps(phase, name, known, d)
    requires if phase.Removing? then ByOrdinal(d, c) else ByOrdinal(c, d)
    ensures InTurn(live, a, b)
  {
    FromColumn(phase, name, live, known, c, a);
    FromColumn(phase, name, live, known, d, b);
    StringLeReflexive(name.schema);
    StringLeReflexive(name.table);
  }

  lemma {:induction false} ColumnsOpsInTurn(phase: Phase, name: TableName, live: Tables, known: map<string, Column>,
                                            columns: seq<Column>)
    requires KnownColumns(phase, name, live, known, columns) && InPhaseOrder(phase, columns)
    ensures AllInTurn(live, ColumnsOps(phase, name, known, columns))
    decreases |columns|
  {
    if columns != [] {
      var c, rest := columns[0], columns[1..];
      var first, later := ColumnOps(phase, name, known, c), ColumnsOps(phase, name, known, rest);
      if rest != [] { TailInOrder(phase, columns, rest[0]); }
      ColumnsOpsInTurn(phase, name, live, known, rest);
      forall a, b | a in first && b in later ensures InTurn(live, a, b) {
        var d := OpHasColumn(phase, name, known, rest, b);
        TailInOrder(phase, columns, d);
        assert c in columns && d in columns;
        ColumnsInTurn(phase, name, live, known, c, d, a, b);
      }
      ConcatInTurn(live, first, later);
    }
  }

  lemma ConcatInTurn(live: Tables, first: seq<Operation>, later: seq<Operation>)
    requires AllInTurn(live, first) && AllInTurn(live, later)
    requires forall a, b | a in first && b in later && Rank(a) == Rank(b) && !a.DropTable? :: InTurn(live, a, b)
    ensures AllInTurn(live, first + later)
  {
    var all := first + later;
    forall i, j | 0 <= i < j < |all| && Rank(all[i]) == Rank(all[j]) && !all[i].DropTable?
      ensures InTurn(live, all[i], all[j])
    {
      if i < |first| && j >= |first| {
        assert all[i] in first && all[j] in later;
      }
    }
  }

  // ----- all tables -----

  lemma PhaseColumnsKnown(phase: Phase, name: TableName, live: Tables, desired: Table)
    requires name in live && ValidTable(name, live[name])
    ensures KnownColumns(phase, name, live, ColumnsByName(desired.columns), PhaseColumns(phase, live[name], desired))
  {
    var columns := PhaseColumns(phase, live[name], desired);
    PhaseColumnsMembers(phase, live[name], desired);
    if !phase.Adding? {
      forall c | c in columns
        ensures c.name in ColumnsByName(live[name].columns) && ColumnsByName(live[name].columns)[c.name] == c
      {
        OneOfName(live[name].columns, c, ColumnsByName(live[name].columns)[c.name]);
      }
    }
  }

  lemma OpsAreOfTable(phase: Phase, name: TableName, live: Tables, known: map<string, Column>, columns: seq<Column>)
    requires KnownColumns(phase, name, live, known, columns)
    ensures forall op :: op in ColumnsOps(phase, name, known, columns) ==> TableOf(op) == name
  {
    forall op | op in ColumnsOps(phase, name, known, columns) ensures TableOf(op) == name {
      var c := OpHasColumn(phase, name, known, columns, op);
    }
  }

  lemma TableOpsInTurn(phase: Phase, name: TableName, live: Tables, desired: Table)
    requires name in live && ValidTable(name, live[name])
    ensures AllInTurn(live, TableOps(phase, name, live[name], desired))
    ensures forall op :: op in TableOps(phase, name, live[name], desired) ==> TableOf(op) == name
  {
    var columns, known := PhaseColumns(phase, live[name], desired), ColumnsByName(desired.columns);
    PhaseColumnsKnown(phase, name, live, desired);
    PhaseColumnsSorted(phase, live[name], desired);
    ColumnsOpsInTurn(phase, name, live, known, columns);
    OpsAreOfTable(phase, name, live, known, columns);
  }

  lemma PhaseColumnsSorted(phase: Phase, live: Table, desired: Table)
    ensures InPhaseOrder(phase, PhaseColumns(phase, live, desired))
  {
    ByOrdinalIsTotal();
    match phase
    case Adding => SortIsSorted(ByOrdinal, Only(desired.columns, ColumnsByName(live.columns), false));
    case Retyping => SortIsSorted(ByOrdinal, Only(live.columns, ColumnsByName(desired.columns), true));
    case Renulling => SortIsSorted(ByOrdinal, Only(live.columns, ColumnsByName(desired.columns), true));
    case Removing => SortIsSorted(ByOrdinalDescending, Only(live.columns, ColumnsByName(desired.columns), false));
  }

  lemma AscendingFollow(names: seq<TableName>, i: nat, j: nat)
    requires NamesAscend(names) && i <= j < |names|
    ensures NamesFollow(names[i], names[j])
  {
    assert TableLe(names[i], names[j]);
    StringLeReflexive(names[i].schema);
  }

  lemma NextTableInTurn(names: seq<TableName>, live: Tables, first: seq<Operation>, later: seq<Operation>)
    requires names != [] && NamesAscend(names) && Distinct(names)
    requires AllInTurn(live, first) && forall op :: op in first ==> TableOf(op) == names[0]
    requires AllInTurn(live, later) && forall op :: op in later ==> TableOf(op) in names[1..]
    ensures AllInTurn(live, first + later)
  {
    forall a, b | a in first && b in later ensures InTurn(live, a, b) {
      var k :| 1 <= k < |names| && names[k] == TableOf(b);
      AscendingFollow(names, 0, k);
      assert names[0] != names[k];
    }
    ConcatInTurn(live, first, later);
  }

  lemma NamesTail(names: seq<TableName>)
    requires names != [] && NamesAscend(names) && Distinct(names)
    ensures NamesAscend(names[1..]) && Distinct(names[1..])
  {
    assert forall i :: 0 <= i < |names[1..]| ==> names[1..][i] == names[i + 1];
  }

  lemma {:induction false} PhaseOpsInTurn(phase: Phase, names: seq<TableName>, live: Tables, desired: Tables)
    requires ValidTables(live) && NamesAscend(names) && Distinct(names)
    ensures AllInTurn(live, PhaseOps(phase, names, live, desired))
    ensures forall op :: op in PhaseOps(phase, names, live, desired) ==> TableOf(op) in names
    decreases |names|
  {
    if names != [] {
      var n, rest := names[0], names[1..];
      NamesTail(names);
      PhaseOpsInTurn(phase, rest, live, desired);
      if n in live && n in desired {
        TableOpsInTurn(phase, n, live, desired[n]);
        NextTableInTurn(names, live, TableOps(phase, n, live[n], desired[n]), PhaseOps(phase, rest, live, desired));
      } else {
        assert PhaseOps(phase, names, live, desired) == [] + PhaseOps(phase, rest, live, desired);
      }
    }
  }

  lemma {:induction false} CreateOpsInTurn(names: seq<TableName>, live: Tables, desired: Tables)
    requires NamesAscend(names) && Distinct(names) && FiledTables(desired)
    requires forall n :: n in names ==> n in desired
    ensures AllInTurn(live, CreateOps(names, live, desired))
    ensures forall op :: op in CreateOps(names, live, desired) ==> TableOf(op) in names
    decreases |names|
  {
    if names != [] {
      var n, rest := names[0], names[1..];
      NamesTail(names);
      CreateOpsInTurn(rest, live, desired);
      CreateOpsCreate(rest, live, desired);
      assert n in desired && FiledTable(n, desired[n]);
      var ours := if n !in live then [CreateTable(desired[n])] else [];
      NextTableInTurn(names, live, ours, CreateOps(rest, live, desired));
    }
  }

  lemma RankedApart(live: Tables, first: seq<Operation>, later: seq<Operation>, rank: nat)
    requires AllInTurn(live, first) && AllInTurn(live, later)
    requires (forall op :: op in first ==> Rank(op) < rank) && forall op :: op in later ==> Rank(op) >= rank
    ensures AllInTurn(live, first + later)
  {
    ConcatInTurn(live, first, later);
  }

  /** In every plan the operations of one phase follow the names of their tables, and
    * within a table the positions of their columns; columns are removed last first.
    * Tables are dropped in an order of their own.
    */
  lemma PlanIsInTurn(live: Tables, foreignKeys: seq<ForeignKey>, desired: Tables, plan: MigrationPlan)
    requires ValidTables(live) && FiledTables(desired)
    requires Plan(live, foreignKeys, desired) == Success(plan)
    ensures AllInTurn(live, plan.up)
  {
    var order := PlanParts(live, foreignKeys, desired, plan);
    var creates := CreateOps(Names(desired), live, desired);
    NamesInOrder(desired);
    CreateOpsInTurn(Names(desired), live, desired);
    CreateOpsCreate(Names(desired), live, desired);
    ColumnPhasesInTurn(live, desired);
    DropOpsRank(order, live);
    ThreeInTurn(live, creates, ColumnPhases(live, desired), DropOps(order, live));
  }

  lemma ThreeInTurn(live: Tables, creates: seq<Operation>, columns: seq<Operation>, drops: seq<Operation>)
    requires AllInTurn(live, creates) && AllRank(creates, 0)
    requires AllInTurn(live, columns) && forall op :: op in columns ==> 1 <= Rank(op) <= 4
    requires AllRank(drops, 5)
    ensures AllInTurn(live, creates + columns + drops)
  {
    RankedApart(live, creates, columns, 1);
    DropsInTurn(live, drops);
    RankedApart(live, creates + columns, drops, 5);
  }

  lemma DropsInTurn(live: Tables, drops: seq<Operation>)
    requires AllRank(drops, 5)
    ensures AllInTurn(live, drops)
  {
    forall i | 0 <= i < |drops| ensures drops[i].DropTable? {
      assert drops[i] in drops && Rank(drops[i]) == 5;
    }
  }

  lemma PhaseInTurn(phase: Phase, visited: Tables, live: Tables, desired: Tables) returns (ops: seq<Operation>)
    requires ValidTables(live)
    ensures ops == PhaseOps(phase, Names(visited), live, desired)
    ensures AllInTurn(live, ops) && AllRank(ops, RankOf(phase))
  {
    ops := PhaseOps(phase, Names(visited), live, desired);
    NamesInOrder(visited);
    PhaseOpsInTurn(phase, Names(visited), live, desired);
    PhaseOpsRank(phase, Names(visited), live, desired);
  }

  lemma ColumnPhasesInTurn(live: Tables, desired: Tables)
    requires ValidTables(live)
    ensures AllInTurn(live, ColumnPhases(live, desired))
    ensures forall op :: op in ColumnPhases(live, desired) ==> 1 <= Rank(op) <= 4
  {
    var a := PhaseInTurn(Adding, desired, live, desired);
    var b := PhaseInTurn(Retyping, live, live, desired);
    var c := PhaseInTurn(Renulling, live, live, desired);
    var d := PhaseInTurn(Removing, live, live, desired);
    FourInTurn(live, a, b, c, d);
  }

  lemma FourInTurn(live: Tables, a: seq<Operation>, b: seq<Operation>, c: seq<Operation>, d: seq<Operation>)
    requires AllInTurn(live, a) && AllInTurn(live, b) && AllInTurn(live, c) && AllInTurn(live, d)
    requires AllRank(a, 1) && AllRank(b, 2) && AllRank(c, 3) && AllRank(d, 4)
    ensures AllInTurn(live, a + b + c + d) && forall op :: op in a + b + c + d ==> 1 <= Rank(op) <= 4
  {
    RankedApart(live, a, b, 2);
    RankedApart(live, a + b, c, 3);
    RankedApart(live, a + b + c, d, 4);
  }

  // ----- what a rejected plan is told -----

  ghost predicate IsDropped(live: Tables, desired: Tables, t: TableName) {
    t in live && t !in desired
  }

  /** No table before this one, in the order of names, has lost its key. */
  ghost predicate FirstToLoseKey(live: Tables, desired: Tables, t: TableName) {
    && t in live && t in desired && !KeyKept(live[t], desired[t])
    && forall n | n in live && n in desired && !KeyKept(live[n], desired[n]) :: NamesFollow(t, n)
  }

  ghost predicate FirstKeyColumnGone(key: seq<string>, columns: map<string, Column>, column: string) {
    exists i :: 0 <= i < |key| && key[i] == column && column !in columns && forall j | 0 <= j < i :: key[j] in columns
  }

  ghost predicate RefersAcross(live: Tables, desired: Tables, k: ForeignKey) {
    IsDropped(live, desired, k.parent) && !IsDropped(live, desired, k.child)
  }

  ghost predicate FirstToReferAcross(live: Tables, desired: Tables, foreignKeys: seq<ForeignKey>, k: ForeignKey) {
    exists i :: 0 <= i < |foreignKeys| && foreignKeys[i] == k && RefersAcross(live, desired, k)
             && forall j | 0 <= j < i :: !RefersAcross(live, desired, foreignKeys[j])
  }

  ghost predicate RejectionIsTrue(error: DiffError, live: Tables, foreignKeys: seq<ForeignKey>, desired: Tables) {
    match error
    case PrimaryKeyChanged(t) =>
      FirstToLoseKey(live, desired, t) && live[t].primaryKey != desired[t].primaryKey
    case PrimaryKeyColumnDropped(t, column) =>
      && FirstToLoseKey(live, desired, t) && live[t].primaryKey == desired[t].primaryKey
      && FirstKeyColumnGone(live[t].primaryKey, ColumnsByName(desired[t].columns), column)
    case RetainedReference(k) =>
      KeysKept(live, desired) && FirstToReferAcross(live, desired, foreignKeys, k)
    case ForeignKeyCycle =>
      && KeysKept(live, desired) && (forall k | k in foreignKeys :: !RefersAcross(live, desired, k))
      && HasCycle(DroppedTables(live, desired), DroppedEdges(DroppedTables(live, desired), foreignKeys))
  }

  lemma {:induction false} FirstMissingIs(key: seq<string>, columns: map<string, Column>)
    requires FirstMissing(key, columns).Some?
    ensures FirstKeyColumnGone(key, columns, FirstMissing(key, columns).value)
  {
    if key[0] in columns {
      FirstMissingIs(key[1..], columns);
      var column := FirstMissing(key, columns).value;
      var i :| 0 <= i < |key[1..]| && key[1..][i] == column && forall j | 0 <= j < i :: key[1..][j] in columns;
      forall j | 0 <= j < i + 1 ensures key[j] in columns {
        if j > 0 { assert key[j] == key[1..][j - 1]; }
      }
      assert key[i + 1] == column;
    }
  }

  lemma {:induction false} FirstRetainedIs(live: Tables, desired: Tables, foreignKeys: seq<ForeignKey>, from: nat)
    requires from <= |foreignKeys| && forall j | 0 <= j < from :: !RefersAcross(live, desired, foreignKeys[j])
    ensures var r := FirstRetainedReference(DroppedTables(live, desired), foreignKeys[from..]);
      match r
      case None => forall k | k in foreignKeys :: !RefersAcross(live, desired, k)
      case Some(error) =>
        error.RetainedReference? && FirstToReferAcross(live, desired, foreignKeys, error.foreignKey)
    decreases |foreignKeys| - from
  {
    var rest := foreignKeys[from..];
    if rest != [] {
      assert rest[0] == foreignKeys[from] && rest[1..] == foreignKeys[from + 1..];
      if !RefersAcross(live, desired, foreignKeys[from]) { FirstRetainedIs(live, desired, foreignKeys, from + 1); }
    }
  }

  lemma KeyErrorIsTrue(live: Tables, desired: Tables)
    requires FirstPrimaryKeyError(Names(live), live, desired).Some?
    ensures RejectionIsTrue(FirstPrimaryKeyError(Names(live), live, desired).value, live, [], desired)
    ensures var error := FirstPrimaryKeyError(Names(live), live, desired).value;
      error.PrimaryKeyChanged? || error.PrimaryKeyColumnDropped?
  {
    var t := LeastTableIsReported(live, desired);
    PrimaryKeyErrorMeans(t, live, desired);
    forall n | n in live && n in desired && !KeyKept(live[n], desired[n]) ensures NamesFollow(t, n) {
      PrimaryKeyErrorMeans(n, live, desired);
      assert TableLe(t, n);
      StringLeReflexive(t.schema);
    }
    if live[t].primaryKey == desired[t].primaryKey {
      FirstMissingIs(live[t].primaryKey, ColumnsByName(desired[t].columns));
    }
  }

  /** A plan is refused for the first reason there is, in the order key, reference and
    * cycle, and the error names the first table, column or foreign key concerned.
    */
  lemma PlanIsRefusedTruly(live: Tables, foreignKeys: seq<ForeignKey>, desired: Tables)
    requires Plan(live, foreignKeys, desired).Failure?
    ensures RejectionIsTrue(Plan(live, foreignKeys, desired).error, live, foreignKeys, desired)
  {
    var dropped := DroppedTables(live, desired);
    if FirstPrimaryKeyError(Names(live), live, desired).Some? {
      KeyErrorIsTrue(live, desired);
    } else {
      KeysKeptExactly(live, desired);
      assert foreignKeys[0..] == foreignKeys;
      FirstRetainedIs(live, desired, foreignKeys, 0);
      GreedyCorrect(dropped, DroppedEdges(dropped, foreignKeys));
    }
  }
}
