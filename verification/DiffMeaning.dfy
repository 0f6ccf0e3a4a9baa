/** What the phases of `up` do: each column, each table and each phase moves from
  * one known shape to the next, and the whole reaches the desired schema.
  */
module DiffMeaning {
  import opened Wrappers
  import opened Orders
  import opened Schema
  import opened DropOrder
  import opened DiffPlan

  // ----- the schema between two phases -----

  type Columns = map<string, ColumnShape>

  function Look(m: Columns, name: string): Option<ColumnShape> {
    if name in m then Some(m[name]) else None
  }

  function Put(m: Columns, name: string, shape: Option<ColumnShape>): Columns {
    if shape.Some? then m[name := shape.value] else m - {name}
  }

  function Before(phase: Phase): nat {
    match phase
    case Adding => 0
    case Retyping => 1
    case Renulling => 2
    case Removing => 3
  }

  /** One column after `stage` phases, from its live and its desired shape. */
  function ColumnAt(stage: nat, live: Option<ColumnShape>, desired: Option<ColumnShape>): Option<ColumnShape> {
    if live.None? then (if stage >= 1 then desired else None)
    else if desired.None? then (if stage >= 4 then None else live)
    else Some(ColumnShape(if stage >= 2 then desired.value.sqlType else live.value.sqlType,
                          if stage >= 3 then desired.value.nullable else live.value.nullable))
  }

  function NamedAt(stage: nat, live: Columns, desired: Columns, name: string): Option<ColumnShape> {
    ColumnAt(stage, Look(live, name), Look(desired, name))
  }

  function ColumnsAt(stage: nat, live: Columns, desired: Columns): Columns {
    map name | name in live.Keys + desired.Keys && NamedAt(stage, live, desired, name).Some?
      :: NamedAt(stage, live, desired, name).value
  }

  lemma LookColumnsAt(stage: nat, live: Columns, desired: Columns, name: string)
    ensures Look(ColumnsAt(stage, live, desired), name) == NamedAt(stage, live, desired, name)
  {}

  lemma SameColumns(a: Columns, b: Columns)
    requires forall name :: Look(a, name) == Look(b, name)
    ensures a == b
  {
    forall name ensures name in a <==> name in b { assert Look(a, name) == Look(b, name); }
    forall name | name in a ensures a[name] == b[name] { assert Look(a, name) == Look(b, name); }
  }

  function TableAt(stage: nat, live: Table, desired: Table): TableShape {
    TableShape(ColumnsAt(stage, ShapeOfTable(live).columns, ShapeOfTable(desired).columns), live.primaryKey)
  }

  function SchemaAt(stage: nat, live: Tables, desired: Tables): SchemaShape {
    map n | n in live.Keys + desired.Keys ::
      if n in live && n in desired then TableAt(stage, live[n], desired[n])
      else if n in live then ShapeOfTable(live[n]) else ShapeOfTable(desired[n])
  }

  // ----- one column -----

  /** `ops` takes column `column` of table `name` from `before` to `after` and touches nothing else. */
  ghost predicate ColumnMoves(ops: seq<Operation>, name: TableName, key: seq<string>, column: string,
                              before: Option<ColumnShape>, after: Option<ColumnShape>) {
    forall s: SchemaShape :: name in s && s[name].primaryKey == key && Look(s[name].columns, column) == before ==>
      Run(ops, s) == Some(s[name := s[name].(columns := Put(s[name].columns, column, after))])
  }

  lemma StayMoves(name: TableName, key: seq<string>, column: string, shape: Option<ColumnShape>)
    ensures ColumnMoves([], name, key, column, shape, shape)
  {
    forall s: SchemaShape | name in s && Look(s[name].columns, column) == shape
      ensures s[name := s[name].(columns := Put(s[name].columns, column, shape))] == s
    {
      assert Put(s[name].columns, column, shape) == s[name].columns;
    }
  }

  lemma OneOperation(op: Operation, s: SchemaShape)
    ensures Run([op], s) == Apply(op, s)
  {
    assert [op][1..] == [];
  }

  lemma OperationMoves(op: Operation, name: TableName, key: seq<string>, column: string,
                       before: Option<ColumnShape>, after: Option<ColumnShape>)
    requires match op
      case AddColumn(t, c) => t == name && c.name == column && before.None? && after == Some(ShapeOfColumn(c))
      case DropColumn(t, c) =>
        t == name && c.name == column && before == Some(ShapeOfColumn(c)) && after.None? && column !in key
      case AlterType(t, c, from, to) =>
        t == name && c == column && before.Some? && before.value.sqlType == from
        && after == Some(before.value.(sqlType := to))
      case SetNotNull(t, c) =>
        t == name && c == column && before.Some? && before.value.nullable
        && after == Some(before.value.(nullable := false))
      case DropNotNull(t, c) =>
        t == name && c == column && before.Some? && !before.value.nullable
        && after == Some(before.value.(nullable := true))
      case _ => false
    ensures ColumnMoves([op], name, key, column, before, after)
  {
    forall s: SchemaShape | name in s && s[name].primaryKey == key && Look(s[name].columns, column) == before
      ensures Run([op], s) == Some(s[name := s[name].(columns := Put(s[name].columns, column, after))])
    {
      OneOperation(op, s);
    }
  }

  lemma ColumnOpsMove(phase: Phase, from: nat, to: nat, name: TableName, key: seq<string>,
                      known: map<string, Column>, c: Column, live: Option<ColumnShape>, desired: Option<ColumnShape>)
    requires from == Before(phase) && to == from + 1
    requires match phase
      case Adding => live.None? && desired == Some(ShapeOfColumn(c))
      case Removing => live == Some(ShapeOfColumn(c)) && desired.None? && c.name !in key
      case _ => live == Some(ShapeOfColumn(c)) && c.name in known && desired == Some(ShapeOfColumn(known[c.name]))
    ensures ColumnMoves(ColumnOps(phase, name, known, c), name, key, c.name,
                        ColumnAt(from, live, desired), ColumnAt(to, live, desired))
  {
    var before, after := ColumnAt(from, live, desired), ColumnAt(to, live, desired);
    var ops := ColumnOps(phase, name, known, c);
    if ops == [] {
      assert before == after;
      StayMoves(name, key, c.name, before);
    } else {
      var op := ops[0];
      assert ops == [op];
      OperationMoves(op, name, key, c.name, before, after);
    }
  }

  lemma LookShape(t: Table, column: string)
    ensures Look(ShapeOfTable(t).columns, column)
         == if column in ColumnsByName(t.columns) then Some(ShapeOfColumn(ColumnsByName(t.columns)[column])) else None
  {}

  /** A live table and what is desired of it, without two new columns of one name. */
  ghost predicate Retains(name: TableName, live: Table, desired: Table) {
    ValidTable(name, live) && FiledTable(name, desired) && DistinctNames(Gained(live, desired))
  }

  lemma OneOfName(columns: seq<Column>, c: Column, d: Column)
    requires DistinctNames(columns) && c in columns && d in columns && c.name == d.name
    ensures c == d
  {
    var i :| 0 <= i < |columns| && columns[i] == c;
    var j :| 0 <= j < |columns| && columns[j] == d;
  }

  lemma GainedHolds(live: Table, desired: Table, c: Column)
    requires DistinctNames(Gained(live, desired)) && c in Gained(live, desired)
    ensures c.name in ColumnsByName(desired.columns) && ColumnsByName(desired.columns)[c.name] == c
  {
    OneOfName(Gained(live, desired), c, ColumnsByName(desired.columns)[c.name]);
  }

  /** A phase moves each column it looks at from its shape before to its shape after. */
  lemma ColumnStep(phase: Phase, from: nat, to: nat, name: TableName, live: Table, desired: Table, c: Column)
    requires Retains(name, live, desired)
    requires from == Before(phase) && to == from + 1
    requires c in PhaseColumns(phase, live, desired)
    requires phase.Removing? ==> c.name !in live.primaryKey
    ensures phase.Retyping? || phase.Renulling? ==> c.name in ColumnsByName(desired.columns)
    ensures var l, d := ShapeOfTable(live).columns, ShapeOfTable(desired).columns;
      ColumnMoves(ColumnOps(phase, name, ColumnsByName(desired.columns), c), name, live.primaryKey, c.name,
                  NamedAt(from, l, d, c.name), NamedAt(to, l, d, c.name))
  {
    PhaseColumnsMembers(phase, live, desired);
    if phase.Adding? { GainedHolds(live, desired, c); } else { ColumnsByNameHolds(name, live, c); }
    LookShape(live, c.name);
    LookShape(desired, c.name);
    ColumnOpsMove(phase, from, to, name, live.primaryKey, ColumnsByName(desired.columns), c,
                  Look(ShapeOfTable(live).columns, c.name), Look(ShapeOfTable(desired).columns, c.name));
  }

  lemma {:induction false} OnlyDistinct(columns: seq<Column>, others: map<string, Column>, shared: bool)
    requires DistinctNames(columns)
    ensures Distinct(Only(columns, others, shared))
  {
    if columns != [] {
      assert DistinctNames(columns[1..]) by {
        assert forall i :: 0 <= i < |columns| - 1 ==> columns[1..][i] == columns[i + 1];
      }
      OnlyDistinct(columns[1..], others, shared);
      var rest := Only(columns[1..], others, shared);
      assert forall c :: c in columns[1..] ==> c != columns[0];
    }
  }

  lemma NamesTell(columns: seq<Column>, part: seq<Column>)
    requires DistinctNames(columns) && Distinct(part) && forall c :: c in part ==> c in columns
    ensures DistinctNames(part)
  {
    forall i, j | 0 <= i < j < |part| ensures part[i].name != part[j].name {
      assert part[i] in columns && part[j] in columns;
      var k :| 0 <= k < |columns| && columns[k] == part[i];
      var l :| 0 <= l < |columns| && columns[l] == part[j];
    }
  }

  lemma NamesDistinct(columns: seq<Column>)
    requires DistinctNames(columns)
    ensures Distinct(columns)
  {}

  /** What a phase looks at, in the order of declaration. */
  function PhaseSource(phase: Phase, live: Table, desired: Table): seq<Column> {
    if phase.Adding? then Gained(live, desired)
    else Only(live.columns, ColumnsByName(desired.columns), !phase.Removing?)
  }

  lemma PhaseSourceDistinct(phase: Phase, name: TableName, live: Table, desired: Table)
    requires Retains(name, live, desired)
    ensures DistinctNames(PhaseSource(phase, live, desired))
  {
    if !phase.Adding? {
      OnlyDistinct(live.columns, ColumnsByName(desired.columns), !phase.Removing?);
      NamesTell(live.columns, PhaseSource(phase, live, desired));
    }
  }

  lemma PhaseColumnsDistinct(phase: Phase, name: TableName, live: Table, desired: Table)
    requires Retains(name, live, desired)
    ensures DistinctNames(PhaseColumns(phase, live, desired))
  {
    var source, columns := PhaseSource(phase, live, desired), PhaseColumns(phase, live, desired);
    PhaseSourceDistinct(phase, name, live, desired);
    NamesDistinct(source);
    DistinctPermutation(columns, source);
    SameElements(columns, source);
    NamesTell(source, columns);
  }

  // ----- one table -----

  function PutAll(m: Columns, columns: seq<Column>, stage: nat, live: Columns, desired: Columns): Columns
    decreases |columns|
  {
    if columns == [] then m
    else PutAll(Put(m, columns[0].name, NamedAt(stage, live, desired, columns[0].name)),
                columns[1..], stage, live, desired)
  }

  ghost predicate Mentions(columns: seq<Column>, name: string) {
    exists c :: c in columns && c.name == name
  }

  lemma {:induction false} LookPutAll(m: Columns, columns: seq<Column>, stage: nat, live: Columns, desired: Columns,
                                      name: string)
    ensures Look(PutAll(m, columns, stage, live, desired), name)
         == if Mentions(columns, name) then NamedAt(stage, live, desired, name) else Look(m, name)
    decreases |columns|
  {
    if columns != [] {
      var m' := Put(m, columns[0].name, NamedAt(stage, live, desired, columns[0].name));
      LookPutAll(m', columns[1..], stage, live, desired, name);
      assert Mentions(columns, name) <==> columns[0].name == name || Mentions(columns[1..], name) by {
        if columns[0].name == name { assert columns[0] in columns; }
        if Mentions(columns[1..], name) {
          var c :| c in columns[1..] && c.name == name;
          assert c in columns;
        }
      }
    }
  }

  lemma {:induction false} ColumnsSteps(phase: Phase, from: nat, to: nat, name: TableName, known: map<string, Column>,
                                        live: Columns, desired: Columns, columns: seq<Column>, s: SchemaShape)
    requires DistinctNames(columns) && name in s
    requires phase.Retyping? || phase.Renulling? ==> forall c :: c in columns ==> c.name in known
    requires forall c :: c in columns ==>
      ColumnMoves(ColumnOps(phase, name, known, c), name, s[name].primaryKey, c.name,
                  NamedAt(from, live, desired, c.name), NamedAt(to, live, desired, c.name))
    requires forall c :: c in columns ==> Look(s[name].columns, c.name) == NamedAt(from, live, desired, c.name)
    ensures Run(ColumnsOps(phase, name, known, columns), s)
         == Some(s[name := s[name].(columns := PutAll(s[name].columns, columns, to, live, desired))])
    decreases |columns|
  {
    if columns == [] {
      assert s[name := s[name]] == s;
    } else {
      var c, rest := columns[0], columns[1..];
      var m := Put(s[name].columns, c.name, NamedAt(to, live, desired, c.name));
      var s' := s[name := s[name].(columns := m)];
      TailDiffers(columns);
      assert c in columns;
      assert Run(ColumnOps(phase, name, known, c), s) == Some(s');
      forall e | e in rest ensures Look(m, e.name) == Look(s[name].columns, e.name) {
        assert e in columns && e.name != c.name;
      }
      ColumnsSteps(phase, from, to, name, known, live, desired, rest, s');
      RunConcat(ColumnOps(phase, name, known, c), ColumnsOps(phase, name, known, rest), s);
      Overwrite(s, name, s[name].(columns := m),
                s[name].(columns := PutAll(m, rest, to, live, desired)));
    }
  }

  lemma TailDiffers(columns: seq<Column>)
    requires columns != [] && DistinctNames(columns)
    ensures DistinctNames(columns[1..])
    ensures forall c :: c in columns[1..] ==> c in columns && c.name != columns[0].name
  {
    assert forall i :: 0 <= i < |columns| - 1 ==> columns[1..][i] == columns[i + 1];
  }

  lemma Overwrite(s: SchemaShape, name: TableName, first: TableShape, second: TableShape)
    ensures s[name := first][name := second] == s[name := second]
  {}

  lemma MemberMentions(phase: Phase, live: Table, desired: Table, c: Column)
    requires match phase
      case Adding => c in desired.columns && c.name !in ColumnsByName(live.columns)
      case Removing => c in live.columns && c.name !in ColumnsByName(desired.columns)
      case _ => c in live.columns && c.name in ColumnsByName(desired.columns)
    ensures Mentions(PhaseColumns(phase, live, desired), c.name)
  {
    PhaseColumnsMembers(phase, live, desired);
  }

  /** Columns a phase does not look at are the same before and after it. */
  lemma PhaseCovers(phase: Phase, from: nat, to: nat, name: TableName, live: Table, desired: Table, column: string)
    requires Retains(name, live, desired)
    requires from == Before(phase) && to == from + 1
    requires !Mentions(PhaseColumns(phase, live, desired), column)
    ensures var l, d := ShapeOfTable(live).columns, ShapeOfTable(desired).columns;
      NamedAt(from, l, d, column) == NamedAt(to, l, d, column)
  {
    var l, d := ColumnsByName(live.columns), ColumnsByName(desired.columns);
    LookShape(live, column);
    LookShape(desired, column);
    if column in d && column !in l {
      if phase.Adding? { MemberMentions(phase, live, desired, d[column]); }
    } else if column in l && column !in d {
      if phase.Removing? { MemberMentions(phase, live, desired, l[column]); }
    } else if column in l && column in d {
      if phase.Retyping? || phase.Renulling? { MemberMentions(phase, live, desired, l[column]); }
    }
  }

  lemma AllPut(phase: Phase, from: nat, to: nat, name: TableName, live: Table, desired: Table)
    requires Retains(name, live, desired)
    requires from == Before(phase) && to == from + 1
    ensures var l, d := ShapeOfTable(live).columns, ShapeOfTable(desired).columns;
      PutAll(ColumnsAt(from, l, d), PhaseColumns(phase, live, desired), to, l, d)
      == ColumnsAt(to, l, d)
  {
    var l, d := ShapeOfTable(live).columns, ShapeOfTable(desired).columns;
    var columns, m := PhaseColumns(phase, live, desired), ColumnsAt(from, l, d);
    var after := PutAll(m, columns, to, l, d);
    forall column ensures Look(after, column) == Look(ColumnsAt(to, l, d), column) {
      LookPutAll(m, columns, to, l, d, column);
      LookColumnsAt(to, l, d, column);
      LookColumnsAt(from, l, d, column);
      if !Mentions(columns, column) { PhaseCovers(phase, from, to, name, live, desired, column); }
    }
    SameColumns(after, ColumnsAt(to, l, d));
  }

  /** `ops` takes table `name` from `before` to `after` and touches no other table. */
  ghost predicate TableMoves(ops: seq<Operation>, name: TableName, before: TableShape, after: TableShape) {
    forall s: SchemaShape :: name in s && s[name] == before ==> Run(ops, s) == Some(s[name := after])
  }

  lemma PhaseColumnsMove(phase: Phase, from: nat, to: nat, name: TableName, live: Table, desired: Table)
    requires Retains(name, live, desired)
    requires from == Before(phase) && to == from + 1
    requires live.primaryKey == desired.primaryKey
    ensures phase.Retyping? || phase.Renulling? ==>
              forall c :: c in PhaseColumns(phase, live, desired) ==> c.name in ColumnsByName(desired.columns)
    ensures var l, d := ShapeOfTable(live).columns, ShapeOfTable(desired).columns;
      forall c :: c in PhaseColumns(phase, live, desired) ==>
        ColumnMoves(ColumnOps(phase, name, ColumnsByName(desired.columns), c), name, live.primaryKey, c.name,
                    NamedAt(from, l, d, c.name), NamedAt(to, l, d, c.name))
  {
    PhaseColumnsMembers(phase, live, desired);
    var l, d := ShapeOfTable(live).columns, ShapeOfTable(desired).columns;
    forall c | c in PhaseColumns(phase, live, desired)
      ensures ColumnMoves(ColumnOps(phase, name, ColumnsByName(desired.columns), c), name, live.primaryKey, c.name,
                          NamedAt(from, l, d, c.name), NamedAt(to, l, d, c.name))
    {
      ColumnStep(phase, from, to, name, live, desired, c);
    }
  }

  lemma TablePhase(phase: Phase, from: nat, to: nat, name: TableName, live: Table, desired: Table)
    requires Retains(name, live, desired)
    requires live.primaryKey == desired.primaryKey
    requires from == Before(phase) && to == from + 1
    ensures TableMoves(TableOps(phase, name, live, desired), name,
                       TableAt(from, live, desired), TableAt(to, live, desired))
  {
    var l, d := ShapeOfTable(live).columns, ShapeOfTable(desired).columns;
    var columns, known := PhaseColumns(phase, live, desired), ColumnsByName(desired.columns);
    PhaseColumnsDistinct(phase, name, live, desired);
    PhaseColumnsMove(phase, from, to, name, live, desired);
    AllPut(phase, from, to, name, live, desired);
    forall s: SchemaShape | name in s && s[name] == TableAt(from, live, desired)
      ensures Run(TableOps(phase, name, live, desired), s) == Some(s[name := TableAt(to, live, desired)])
    {
      forall c | c in columns ensures Look(s[name].columns, c.name) == NamedAt(from, l, d, c.name) {
        LookColumnsAt(from, l, d, c.name);
      }
      ColumnsSteps(phase, from, to, name, known, l, d, columns, s);
    }
  }

  // ----- one phase -----

  ghost predicate SamePrimaryKeys(live: Tables, desired: Tables) {
    forall n :: n in live && n in desired ==> live[n].primaryKey == desired[n].primaryKey
  }

  /** The retained tables after `stage` phases. */
  function Retained(stage: nat, live: Tables, desired: Tables): SchemaShape {
    map n | n in live && n in desired :: TableAt(stage, live[n], desired[n])
  }

  function Overlay(names: seq<TableName>, target: SchemaShape, s: SchemaShape): SchemaShape {
    map n | n in s :: if n in names && n in target then target[n] else s[n]
  }

  /** The schema with one table taken to its target, if it has one. */
  function Advanced(n: TableName, target: SchemaShape, s: SchemaShape): SchemaShape {
    if n in target then s[n := target[n]] else s
  }

  lemma OverlayCons(names: seq<TableName>, target: SchemaShape, s: SchemaShape)
    requires names != [] && (names[0] in target ==> names[0] in s)
    ensures Overlay(names[1..], target, Advanced(names[0], target, s)) == Overlay(names, target, s)
  {
    assert forall x :: x in names <==> x == names[0] || x in names[1..];
  }

  ghost predicate RetainedMove(phase: Phase, from: nat, to: nat, live: Tables, desired: Tables) {
    forall n :: n in live && n in desired ==>
      TableMoves(TableOps(phase, n, live[n], desired[n]), n, TableAt(from, live[n], desired[n]),
                 TableAt(to, live[n], desired[n]))
  }

  lemma AllRetainedMove(phase: Phase, from: nat, to: nat, live: Tables, desired: Tables)
    requires ValidTables(live) && FiledTables(desired) && NamesAreApart(live, desired) && SamePrimaryKeys(live, desired)
    requires from == Before(phase) && to == from + 1
    ensures RetainedMove(phase, from, to, live, desired)
  {
    forall n | n in live && n in desired
      ensures TableMoves(TableOps(phase, n, live[n], desired[n]), n, TableAt(from, live[n], desired[n]),
                         TableAt(to, live[n], desired[n]))
    {
      TablePhase(phase, from, to, n, live[n], desired[n]);
    }
  }

  /** The retained tables among `names` are at `stage`. */
  ghost predicate Ready(names: seq<TableName>, stage: nat, live: Tables, desired: Tables, s: SchemaShape) {
    forall n :: n in names && n in live && n in desired ==> n in s && s[n] == TableAt(stage, live[n], desired[n])
  }

  function TableOpsIfRetained(phase: Phase, n: TableName, live: Tables, desired: Tables): seq<Operation> {
    if n in live && n in desired then TableOps(phase, n, live[n], desired[n]) else []
  }

  lemma RetainedAt(stage: nat, live: Tables, desired: Tables, n: TableName)
    ensures n in Retained(stage, live, desired) <==> n in live && n in desired
    ensures n in live && n in desired ==> Retained(stage, live, desired)[n] == TableAt(stage, live[n], desired[n])
  {}

  lemma {:induction false} HeadSteps(phase: Phase, from: nat, to: nat, n: TableName, live: Tables, desired: Tables,
                  target: SchemaShape, s: SchemaShape)
    requires target == Retained(to, live, desired) && RetainedMove(phase, from, to, live, desired)
    requires n in live && n in desired ==> n in s && s[n] == TableAt(from, live[n], desired[n])
    ensures Run(TableOpsIfRetained(phase, n, live, desired), s) == Some(Advanced(n, target, s))
  {
    RetainedAt(to, live, desired, n);
    if n in live && n in desired {
      assert TableMoves(TableOps(phase, n, live[n], desired[n]), n, TableAt(from, live[n], desired[n]),
                        TableAt(to, live[n], desired[n]));
    }
  }

  lemma ReadyHead(names: seq<TableName>, stage: nat, live: Tables, desired: Tables, s: SchemaShape)
    requires names != [] && Ready(names, stage, live, desired, s)
    ensures var n := names[0]; n in live && n in desired ==> n in s && s[n] == TableAt(stage, live[n], desired[n])
  {
    assert names[0] in names;
  }

  lemma ReadyTail(names: seq<TableName>, stage: nat, live: Tables, desired: Tables, target: SchemaShape, s: SchemaShape)
    requires names != [] && Distinct(names) && Ready(names, stage, live, desired, s)
    ensures Ready(names[1..], stage, live, desired, Advanced(names[0], target, s))
  {
    DistinctSplit(names);
    assert forall x :: x in names[1..] ==> x in names && x != names[0];
  }

  lemma FirstSteps(phase: Phase, from: nat, to: nat, names: seq<TableName>, live: Tables, desired: Tables,
                   target: SchemaShape, s: SchemaShape) returns (s': SchemaShape)
    requires names != [] && target == Retained(to, live, desired)
    requires RetainedMove(phase, from, to, live, desired) && Distinct(names) && Ready(names, from, live, desired, s)
    ensures Run(TableOpsIfRetained(phase, names[0], live, desired), s) == Some(s')
    ensures Ready(names[1..], from, live, desired, s')
    ensures Overlay(names[1..], target, s') == Overlay(names, target, s)
  {
    s' := Advanced(names[0], target, s);
    RetainedAt(to, live, desired, names[0]);
    ReadyHead(names, from, live, desired, s);
    ReadyTail(names, from, live, desired, target, s);
    HeadSteps(phase, from, to, names[0], live, desired, target, s);
    OverlayCons(names, target, s);
  }

  lemma OverlayNothing(target: SchemaShape, s: SchemaShape)
    ensures Overlay([], target, s) == s
  {}

  lemma PhaseOpsCons(phase: Phase, names: seq<TableName>, live: Tables, desired: Tables)
    requires names != []
    ensures PhaseOps(phase, names, live, desired)
         == TableOpsIfRetained(phase, names[0], live, desired) + PhaseOps(phase, names[1..], live, desired)
  {}

  lemma {:induction false} PhaseSteps(phase: Phase, from: nat, to: nat, names: seq<TableName>, live: Tables,
                                      desired: Tables, target: SchemaShape, s: SchemaShape)
    requires RetainedMove(phase, from, to, live, desired) && Distinct(names) && Ready(names, from, live, desired, s)
    requires target == Retained(to, live, desired)
    ensures Run(PhaseOps(phase, names, live, desired), s) == Some(Overlay(names, target, s))
    decreases |names|
  {
    if names == [] {
      OverlayNothing(target, s);
    } else {
      var rest := names[1..];
      var s' := FirstSteps(phase, from, to, names, live, desired, target, s);
      DistinctTail(names);
      PhaseSteps(phase, from, to, rest, live, desired, target, s');
      PhaseOpsCons(phase, names, live, desired);
      RunConcatSome(TableOpsIfRetained(phase, names[0], live, desired), PhaseOps(phase, rest, live, desired), s, s');
    }
  }

  lemma DistinctTail<T>(s: seq<T>)
    requires s != [] && Distinct(s)
    ensures Distinct(s[1..])
  {}

  lemma OverlayAdvances(from: nat, to: nat, names: seq<TableName>, live: Tables, desired: Tables)
    requires forall n :: n in live && n in desired ==> n in names
    ensures Overlay(names, Retained(to, live, desired), SchemaAt(from, live, desired)) == SchemaAt(to, live, desired)
  {}

  lemma SchemaAtRetained(names: seq<TableName>, stage: nat, live: Tables, desired: Tables, s: SchemaShape)
    requires s == SchemaAt(stage, live, desired)
    ensures Ready(names, stage, live, desired, s)
  {}

  lemma PhaseAdvances(phase: Phase, from: nat, to: nat, names: seq<TableName>, live: Tables, desired: Tables)
    requires RetainedMove(phase, from, to, live, desired)
    requires Distinct(names) && forall n :: n in live && n in desired ==> n in names
    ensures Run(PhaseOps(phase, names, live, desired), SchemaAt(from, live, desired))
         == Some(SchemaAt(to, live, desired))
  {
    OverlayAdvances(from, to, names, live, desired);
    var s := SchemaAt(from, live, desired);
    SchemaAtRetained(names, from, live, desired, s);
    PhaseSteps(phase, from, to, names, live, desired, Retained(to, live, desired), s);
    Reaches(Run(PhaseOps(phase, names, live, desired), s), Overlay(names, Retained(to, live, desired), s),
            SchemaAt(to, live, desired));
  }

  lemma Reaches(outcome: Option<SchemaShape>, a: SchemaShape, b: SchemaShape)
    requires outcome == Some(a) && a == b
    ensures outcome == Some(b)
  {}

  lemma RunConcatSome(a: seq<Operation>, b: seq<Operation>, s: SchemaShape, middle: SchemaShape)
    requires Run(a, s) == Some(middle)
    ensures Run(a + b, s) == Run(b, middle)
  {
    RunConcat(a, b, s);
  }

  lemma ColumnPhasesAdvance(live: Tables, desired: Tables)
    requires ValidTables(live) && FiledTables(desired) && NamesAreApart(live, desired) && SamePrimaryKeys(live, desired)
    ensures Run(ColumnPhases(live, desired), SchemaAt(0, live, desired)) == Some(SchemaAt(4, live, desired))
  {
    AllRetainedMove(Adding, 0, 1, live, desired);
    AllRetainedMove(Retyping, 1, 2, live, desired);
    AllRetainedMove(Renulling, 2, 3, live, desired);
    AllRetainedMove(Removing, 3, 4, live, desired);
    FourPhasesAdvance(live, desired, Names(live), Names(desired));
  }

  lemma FourPhasesAdvance(live: Tables, desired: Tables, lives: seq<TableName>, desireds: seq<TableName>)
    requires RetainedMove(Adding, 0, 1, live, desired) && RetainedMove(Retyping, 1, 2, live, desired)
    requires RetainedMove(Renulling, 2, 3, live, desired) && RetainedMove(Removing, 3, 4, live, desired)
    requires Distinct(lives) && Distinct(desireds)
    requires forall n :: n in live ==> n in lives
    requires forall n :: n in desired ==> n in desireds
    ensures Run(PhaseOps(Adding, desireds, live, desired) + PhaseOps(Retyping, lives, live, desired)
                + PhaseOps(Renulling, lives, live, desired) + PhaseOps(Removing, lives, live, desired),
                SchemaAt(0, live, desired)) == Some(SchemaAt(4, live, desired))
  {
    PhaseAdvances(Adding, 0, 1, desireds, live, desired);
    PhaseAdvances(Retyping, 1, 2, lives, live, desired);
    PhaseAdvances(Renulling, 2, 3, lives, live, desired);
    PhaseAdvances(Removing, 3, 4, lives, live, desired);
    ChainFour(PhaseOps(Adding, desireds, live, desired), PhaseOps(Retyping, lives, live, desired),
              PhaseOps(Renulling, lives, live, desired), PhaseOps(Removing, lives, live, desired),
              SchemaAt(0, live, desired), SchemaAt(1, live, desired), SchemaAt(2, live, desired),
              SchemaAt(3, live, desired));
  }

  lemma ChainFour(a: seq<Operation>, b: seq<Operation>, c: seq<Operation>, d: seq<Operation>,
                  s0: SchemaShape, s1: SchemaShape, s2: SchemaShape, s3: SchemaShape)
    requires Run(a, s0) == Some(s1) && Run(b, s1) == Some(s2) && Run(c, s2) == Some(s3)
    ensures Run(a + b + c + d, s0) == Run(d, s3)
  {
    RunConcatSome(a, b, s0, s1);
    RunConcatSome(a + b, c, s0, s2);
    RunConcatSome(a + b + c, d, s0, s3);
  }

  // ----- creating and dropping tables -----

  function NewTables(names: seq<TableName>, live: Tables, desired: Tables): SchemaShape {
    map n | n in desired && n in names && n !in live :: ShapeOfTable(desired[n])
  }

  lemma NewTablesCons(names: seq<TableName>, live: Tables, desired: Tables)
    requires names != [] && names[0] in desired
    ensures NewTables(names, live, desired)
         == if names[0] in live then NewTables(names[1..], live, desired)
            else NewTables(names[1..], live, desired)[names[0] := ShapeOfTable(desired[names[0]])]
  {
    assert forall x :: x in names <==> x == names[0] || x in names[1..];
  }

  lemma UpdateLate<K, V>(m: map<K, V>, late: map<K, V>, k: K, v: V)
    requires k !in late
    ensures m[k := v] + late == m + late[k := v]
  {}

  lemma {:induction false} CreateSteps(names: seq<TableName>, live: Tables, desired: Tables, s: SchemaShape)
    requires FiledTables(desired) && NamesAreApart(live, desired)
    requires Distinct(names) && forall n :: n in names ==> n in desired
    requires forall n :: n in names && n !in live ==> n !in s
    ensures Run(CreateOps(names, live, desired), s) == Some(s + NewTables(names, live, desired))
    decreases |names|
  {
    if names == [] {
      assert s + NewTables(names, live, desired) == s;
    } else {
      var n, rest := names[0], names[1..];
      DistinctSplit(names);
      NewTablesCons(names, live, desired);
      assert n in names && forall x :: x in rest ==> x in names;
      if n !in live {
        var s' := s[n := ShapeOfTable(desired[n])];
        CreateApplies(n, desired[n], s);
        UpdateLate(s, NewTables(rest, live, desired), n, ShapeOfTable(desired[n]));
        CreateSteps(rest, live, desired, s');
        RunConcatSome([CreateTable(desired[n])], CreateOps(rest, live, desired), s, s');
      } else {
        CreateSteps(rest, live, desired, s);
        RunConcatSome([], CreateOps(rest, live, desired), s, s);
      }
    }
  }

  lemma CreateApplies(name: TableName, t: Table, s: SchemaShape)
    requires ValidTable(name, t) && name !in s
    ensures Run([CreateTable(t)], s) == Some(s[name := ShapeOfTable(t)])
  {
    OneOperation(CreateTable(t), s);
  }

  lemma StageZero(live: Table, desired: Table)
    ensures TableAt(0, live, desired) == ShapeOfTable(live)
  {
    SameColumns(ColumnsAt(0, ShapeOfTable(live).columns, ShapeOfTable(desired).columns), ShapeOfTable(live).columns);
  }

  lemma StageFour(live: Table, desired: Table)
    requires live.primaryKey == desired.primaryKey
    ensures TableAt(4, live, desired) == ShapeOfTable(desired)
  {
    SameColumns(ColumnsAt(4, ShapeOfTable(live).columns, ShapeOfTable(desired).columns), ShapeOfTable(desired).columns);
  }

  lemma CreateReachesStageZero(live: Tables, desired: Tables)
    requires FiledTables(desired) && NamesAreApart(live, desired)
    ensures Run(CreateOps(Names(desired), live, desired), ShapeOf(live)) == Some(SchemaAt(0, live, desired))
  {
    CreateSteps(Names(desired), live, desired, ShapeOf(live));
    StageZeroIsLive(Names(desired), live, desired);
  }

  lemma StageZeroIsLive(names: seq<TableName>, live: Tables, desired: Tables)
    requires forall n :: n in names <==> n in desired
    ensures ShapeOf(live) + NewTables(names, live, desired) == SchemaAt(0, live, desired)
  {
    forall n | n in live && n in desired ensures TableAt(0, live[n], desired[n]) == ShapeOfTable(live[n]) {
      StageZero(live[n], desired[n]);
    }
  }

  function Without(order: seq<TableName>, s: SchemaShape): SchemaShape {
    map n | n in s && n !in order :: s[n]
  }

  lemma WithoutCons(order: seq<TableName>, s: SchemaShape)
    requires order != []
    ensures Without(order[1..], s - {order[0]}) == Without(order, s)
  {
    assert forall x :: x in order <==> x == order[0] || x in order[1..];
  }

  lemma {:induction false} DropSteps(order: seq<TableName>, live: Tables, s: SchemaShape)
    requires Distinct(order)
    requires forall n :: n in order ==> n in live && ValidTable(n, live[n]) && n in s && s[n] == ShapeOfTable(live[n])
    ensures Run(DropOps(order, live), s) == Some(Without(order, s))
    decreases |order|
  {
    if order == [] {
      assert Without(order, s) == s;
    } else {
      var n, rest := order[0], order[1..];
      DistinctSplit(order);
      WithoutCons(order, s);
      assert n in order && forall x :: x in rest ==> x in order;
      DropApplies(n, live[n], s);
      DropSteps(rest, live, s - {n});
      RunConcatSome([DropTable(live[n])], DropOps(rest, live), s, s - {n});
    }
  }

  lemma DropApplies(name: TableName, t: Table, s: SchemaShape)
    requires ValidTable(name, t) && name in s && s[name] == ShapeOfTable(t)
    ensures Run([DropTable(t)], s) == Some(s - {name})
  {
    OneOperation(DropTable(t), s);
  }

  ghost predicate Drops(order: seq<TableName>, live: Tables, desired: Tables) {
    Distinct(order) && forall n :: n in order <==> n in DroppedTables(live, desired)
  }

  lemma StageFourIsDesired(order: seq<TableName>, live: Tables, desired: Tables)
    requires SamePrimaryKeys(live, desired) && Drops(order, live, desired)
    ensures Without(order, SchemaAt(4, live, desired)) == ShapeOf(desired)
  {
    forall n | n in live && n in desired ensures TableAt(4, live[n], desired[n]) == ShapeOfTable(desired[n]) {
      StageFour(live[n], desired[n]);
    }
  }

  lemma DropReachesDesired(order: seq<TableName>, live: Tables, desired: Tables)
    requires ValidTables(live) && SamePrimaryKeys(live, desired) && Drops(order, live, desired)
    ensures Run(DropOps(order, live), SchemaAt(4, live, desired)) == Some(ShapeOf(desired))
  {
    assert forall n :: n in order ==> ValidTable(n, live[n]);
    DropSteps(order, live, SchemaAt(4, live, desired));
    StageFourIsDesired(order, live, desired);
  }

  lemma UpReachesDesired(order: seq<TableName>, live: Tables, desired: Tables)
    requires ValidTables(live) && FiledTables(desired) && NamesAreApart(live, desired) && SamePrimaryKeys(live, desired)
    requires Drops(order, live, desired)
    ensures Run(UpOps(order, live, desired), ShapeOf(live)) == Some(ShapeOf(desired))
  {
    CreateReachesStageZero(live, desired);
    ColumnPhasesAdvance(live, desired);
    DropReachesDesired(order, live, desired);
    ChainThree(CreateOps(Names(desired), live, desired), ColumnPhases(live, desired), DropOps(order, live),
               ShapeOf(live), SchemaAt(0, live, desired), SchemaAt(4, live, desired));
  }

  lemma ChainThree(a: seq<Operation>, b: seq<Operation>, c: seq<Operation>,
                   s0: SchemaShape, s1: SchemaShape, s2: SchemaShape)
    requires Run(a, s0) == Some(s1) && Run(b, s1) == Some(s2)
    ensures Run(a + b + c, s0) == Run(c, s2)
  {
    RunConcatSome(a, b, s0, s1);
    RunConcatSome(a + b, c, s0, s2);
  }
}
