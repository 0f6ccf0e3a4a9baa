/** Which operations a plan holds, told from the two schemas alone, and which tables
  * and columns it therefore touches.
  */
module DiffContents {
  import opened Wrappers
  import opened Orders
  import opened Schema
  import opened DropOrder
  import opened DiffPlan
  import opened DiffMeaning
  import opened DiffTheorems
  import opened DiffOrder

  ghost predicate IsNamedIn(t: Table, column: string) {
    exists c :: c in t.columns && c.name == column
  }

  ghost predicate IsRetained(live: Tables, desired: Tables, t: TableName) {
    t in live && t in desired
  }

  /** A live column that stays; what is declared for its name is `wanted`. */
  ghost predicate Stays(live: Tables, desired: Tables, t: TableName, column: string, c: Column, wanted: Column) {
    && IsRetained(live, desired, t)
    && c in live[t].columns && c.name == column
    && column in ColumnsByName(desired[t].columns) && wanted == ColumnsByName(desired[t].columns)[column]
  }

  ghost predicate IsRetyped(live: Tables, desired: Tables, t: TableName, column: string, from: PgType, to: PgType) {
    exists c, w :: Stays(live, desired, t, column, c, w) && from == c.sqlType && to == w.sqlType && from != to
  }

  ghost predicate IsRenulled(live: Tables, desired: Tables, t: TableName, column: string, nullable: bool) {
    exists c, w :: Stays(live, desired, t, column, c, w) && c.nullable != nullable && w.nullable == nullable
  }

  /** One difference between the schemas calls for this operation. */
  ghost predicate IsCalledFor(live: Tables, desired: Tables, op: Operation) {
    match op
    case CreateTable(created) => exists t :: t in desired && t !in live && created == desired[t]
    case DropTable(dropped) => exists t :: IsDropped(live, desired, t) && dropped == live[t]
    case AddColumn(t, c) => IsRetained(live, desired, t) && c in desired[t].columns && !IsNamedIn(live[t], c.name)
    case DropColumn(t, c) => IsRetained(live, desired, t) && c in live[t].columns && !IsNamedIn(desired[t], c.name)
    case AlterType(t, column, from, to) => IsRetyped(live, desired, t, column, from, to)
    case SetNotNull(t, column) => IsRenulled(live, desired, t, column, false)
    case DropNotNull(t, column) => IsRenulled(live, desired, t, column, true)
  }

  lemma ByNameExactly(t: Table, column: string)
    ensures column in ColumnsByName(t.columns) <==> IsNamedIn(t, column)
  {}

  // ----- one phase -----

  ghost predicate OpOfColumns(phase: Phase, name: TableName, known: map<string, Column>, columns: seq<Column>,
                              op: Operation)
    requires phase.Retyping? || phase.Renulling? ==> forall c :: c in columns ==> c.name in known
  {
    exists c :: c in columns && op in ColumnOps(phase, name, known, c)
  }

  lemma {:induction false} ColumnsOpsExactly(phase: Phase, name: TableName, known: map<string, Column>,
                                             columns: seq<Column>, op: Operation)
    requires phase.Retyping? || phase.Renulling? ==> forall c :: c in columns ==> c.name in known
    ensures op in ColumnsOps(phase, name, known, columns) <==> OpOfColumns(phase, name, known, columns, op)
  {
    if columns != [] {
      ColumnsOpsExactly(phase, name, known, columns[1..], op);
      assert forall c :: c in columns <==> c == columns[0] || c in columns[1..];
    }
  }

  ghost predicate BelongsTo(phase: Phase, op: Operation) {
    Rank(op) == RankOf(phase)
  }

  /** The operation is of this phase, about this table, and called for. */
  ghost predicate PhaseCallsFor(phase: Phase, t: TableName, live: Tables, desired: Tables, op: Operation) {
    BelongsTo(phase, op) && TableOf(op) == t && IsCalledFor(live, desired, op)
  }

  lemma ColumnCallsFor(phase: Phase, t: TableName, live: Tables, desired: Tables, c: Column, op: Operation)
    requires IsRetained(live, desired, t) && c in PhaseColumns(phase, live[t], desired[t])
    requires phase.Retyping? || phase.Renulling? ==> c.name in ColumnsByName(desired[t].columns)
    requires op in ColumnOps(phase, t, ColumnsByName(desired[t].columns), c)
    ensures PhaseCallsFor(phase, t, live, desired, op)
  {
    PhaseColumnsMembers(phase, live[t], desired[t]);
    match phase
    case Adding => ByNameExactly(live[t], c.name);
    case Retyping => ChangeCallsFor(phase, t, live, desired, c, op);
    case Renulling => ChangeCallsFor(phase, t, live, desired, c, op);
    case Removing => ByNameExactly(desired[t], c.name);
  }

  lemma ChangeCallsFor(phase: Phase, t: TableName, live: Tables, desired: Tables, c: Column, op: Operation)
    requires phase.Retyping? || phase.Renulling?
    requires IsRetained(live, desired, t) && c in live[t].columns && c.name in ColumnsByName(desired[t].columns)
    requires op in ColumnOps(phase, t, ColumnsByName(desired[t].columns), c)
    ensures PhaseCallsFor(phase, t, live, desired, op)
  {
    assert Stays(live, desired, t, c.name, c, ColumnsByName(desired[t].columns)[c.name]);
  }

  lemma CallsForColumn(phase: Phase, t: TableName, live: Tables, desired: Tables, op: Operation) returns (c: Column)
    requires IsRetained(live, desired, t) && PhaseCallsFor(phase, t, live, desired, op)
    ensures c in PhaseColumns(phase, live[t], desired[t])
    ensures phase.Retyping? || phase.Renulling? ==> c.name in ColumnsByName(desired[t].columns)
    ensures op in ColumnOps(phase, t, ColumnsByName(desired[t].columns), c)
  {
    PhaseColumnsMembers(phase, live[t], desired[t]);
    match op
    case AddColumn(_, added) =>
      c := added;
      ByNameExactly(live[t], c.name);
    case DropColumn(_, lost) =>
      c := lost;
      ByNameExactly(desired[t], c.name);
    case AlterType(_, column, from, to) =>
      var x, w :| Stays(live, desired, t, column, x, w) && from == x.sqlType && to == w.sqlType && from != to;
      c := x;
    case SetNotNull(_, column) =>
      var x, w :| Stays(live, desired, t, column, x, w) && x.nullable && !w.nullable;
      c := x;
    case DropNotNull(_, column) =>
      var x, w :| Stays(live, desired, t, column, x, w) && !x.nullable && w.nullable;
      c := x;
  }

  lemma TableOpsExactly(phase: Phase, t: TableName, live: Tables, desired: Tables, op: Operation)
    requires IsRetained(live, desired, t)
    ensures op in TableOps(phase, t, live[t], desired[t]) <==> PhaseCallsFor(phase, t, live, desired, op)
  {
    var columns, known := PhaseColumns(phase, live[t], desired[t]), ColumnsByName(desired[t].columns);
    PhaseColumnsMembers(phase, live[t], desired[t]);
    ColumnsOpsExactly(phase, t, known, columns, op);
    if OpOfColumns(phase, t, known, columns, op) {
      var c :| c in columns && op in ColumnOps(phase, t, known, c);
      ColumnCallsFor(phase, t, live, desired, c, op);
    }
    if PhaseCallsFor(phase, t, live, desired, op) {
      var c := CallsForColumn(phase, t, live, desired, op);
    }
  }

  lemma {:induction false} PhaseOpsExactly(phase: Phase, names: seq<TableName>, live: Tables, desired: Tables,
                                           op: Operation)
    ensures op in PhaseOps(phase, names, live, desired)
      <==> TableOf(op) in names && IsRetained(live, desired, TableOf(op))
           && PhaseCallsFor(phase, TableOf(op), live, desired, op)
  {
    if names != [] {
      PhaseOpsExactly(phase, names[1..], live, desired, op);
      PhaseOpsCons(phase, names, live, desired);
      if IsRetained(live, desired, names[0]) { TableOpsExactly(phase, names[0], live, desired, op); }
    }
  }

  lemma InOneOfFour(op: Operation, a: seq<Operation>, b: seq<Operation>, c: seq<Operation>, d: seq<Operation>)
    ensures op in a + b + c + d <==> op in a || op in b || op in c || op in d
  {
    InOneOfTwo(op, a, b);
    InOneOfTwo(op, a + b, c);
    InOneOfTwo(op, a + b + c, d);
  }

  lemma InOneOfTwo(op: Operation, a: seq<Operation>, b: seq<Operation>)
    ensures op in a + b <==> op in a || op in b
  {}

  lemma ChangedIsRetained(live: Tables, desired: Tables, op: Operation)
    requires IsColumnOperation(op) && IsCalledFor(live, desired, op)
    ensures IsRetained(live, desired, TableOf(op))
  {}

  lemma PhaseExactly(phase: Phase, visited: Tables, live: Tables, desired: Tables, op: Operation)
    returns (ops: seq<Operation>)
    requires live.Keys * desired.Keys <= visited.Keys
    ensures ops == PhaseOps(phase, Names(visited), live, desired)
    ensures op in ops <==> BelongsTo(phase, op) && IsColumnOperation(op) && IsCalledFor(live, desired, op)
  {
    ops := PhaseOps(phase, Names(visited), live, desired);
    PhaseOpsExactly(phase, Names(visited), live, desired, op);
    if IsColumnOperation(op) && IsCalledFor(live, desired, op) {
      ChangedIsRetained(live, desired, op);
      assert TableOf(op) in live.Keys * desired.Keys;
    }
  }

  lemma BelongsToOne(op: Operation)
    ensures IsColumnOperation(op)
      <==> BelongsTo(Adding, op) || BelongsTo(Retyping, op) || BelongsTo(Renulling, op) || BelongsTo(Removing, op)
  {}

  lemma AllPhasesExactly(live: Tables, desired: Tables, op: Operation)
    ensures op in ColumnPhases(live, desired) <==> IsColumnOperation(op) && IsCalledFor(live, desired, op)
  {
    var a := PhaseExactly(Adding, desired, live, desired, op);
    var b := PhaseExactly(Retyping, live, live, desired, op);
    var c := PhaseExactly(Renulling, live, live, desired, op);
    var d := PhaseExactly(Removing, live, live, desired, op);
    InOneOfFour(op, a, b, c, d);
    BelongsToOne(op);
  }

  // ----- the whole plan -----

  lemma {:induction false} CreateOpsExactly(names: seq<TableName>, live: Tables, desired: Tables, op: Operation)
    requires forall n :: n in names ==> n in desired
    ensures op in CreateOps(names, live, desired)
      <==> op.CreateTable? && exists t :: t in names && t !in live && op.declared == desired[t]
  {
    if names != [] {
      CreateOpsExactly(names[1..], live, desired, op);
      assert forall t :: t in names <==> t == names[0] || t in names[1..];
    }
  }

  lemma DropOpsExactly(order: seq<TableName>, live: Tables, op: Operation)
    requires forall n :: n in order ==> n in live
    ensures op in DropOps(order, live) <==> op.DropTable? && exists t :: t in order && op.dropped == live[t]
  {
    if op.DropTable? {
      if t :| t in order && op.dropped == live[t] {
        var i :| 0 <= i < |order| && order[i] == t;
        assert DropOps(order, live)[i] == op;
      }
    }
  }

  /** A plan holds the operations that a difference between the schemas calls for, and no others. */
  lemma PlanHoldsExactly(live: Tables, foreignKeys: seq<ForeignKey>, desired: Tables, plan: MigrationPlan,
                         op: Operation)
    requires Plan(live, foreignKeys, desired) == Success(plan)
    ensures op in plan.up <==> IsCalledFor(live, desired, op)
  {
    var order := PlanParts(live, foreignKeys, desired, plan);
    CreateOpsExactly(Names(desired), live, desired, op);
    AllPhasesExactly(live, desired, op);
    DropOpsExactly(order, live, op);
    assert forall t :: t in order <==> IsDropped(live, desired, t);
  }
}
