/** When a planned `up` applies: exactly if no name is declared twice where it
  * would create a column. The reader of desired tables does not refuse such a
  * declaration, and neither does the planner.
  */
module DiffNames {
  import opened Wrappers
  import opened Orders
  import opened Schema
  import opened Graphs
  import opened DropOrder
  import opened DiffPlan
  import opened DiffMeaning

  /** The operations apply to some schema. */
  ghost predicate RunsSomewhere(ops: seq<Operation>) {
    exists s: SchemaShape :: Run(ops, s).Some?
  }

  lemma RunsThere(ops: seq<Operation>, s: SchemaShape)
    requires Run(ops, s).Some?
    ensures RunsSomewhere(ops)
  {}

  lemma PartsRun(a: seq<Operation>, b: seq<Operation>, s: SchemaShape)
    requires Run(a + b, s).Some?
    ensures Run(a, s).Some? && Run(b, Run(a, s).value).Some?
  {
    RunConcat(a, b, s);
  }

  lemma PartsRunSomewhere(a: seq<Operation>, b: seq<Operation>)
    requires RunsSomewhere(a + b)
    ensures RunsSomewhere(a) && RunsSomewhere(b)
  {
    var s: SchemaShape :| Run(a + b, s).Some?;
    PartsRun(a, b, s);
    RunsThere(a, s);
    RunsThere(b, Run(a, s).value);
  }

  // ----- new tables -----

  lemma {:induction false} CreationsRun(names: seq<TableName>, live: Tables, desired: Tables, n: TableName)
    requires forall x :: x in names ==> x in desired
    requires n in names && n !in live && RunsSomewhere(CreateOps(names, live, desired))
    ensures Declarable(desired[n])
    decreases |names|
  {
    var head := if names[0] !in live then [CreateTable(desired[names[0]])] else [];
    PartsRunSomewhere(head, CreateOps(names[1..], live, desired));
    if names[0] == n {
      var s: SchemaShape :| Run(head, s).Some?;
      OneOperation(CreateTable(desired[n]), s);
    } else {
      CreationsRun(names[1..], live, desired, n);
    }
  }

  // ----- columns that retained tables gain -----

  lemma AddingNeedsRoom(name: TableName, c: Column, s: SchemaShape)
    requires Run([AddColumn(name, c)], s).Some?
    ensures name in s && c.name !in s[name].columns
    ensures var s' := Run([AddColumn(name, c)], s).value;
      name in s' && s'[name].columns.Keys == s[name].columns.Keys + {c.name}
  {
    OneOperation(AddColumn(name, c), s);
  }

  /** Columns can be added one after the other only if they are named apart. */
  lemma {:induction false} AdditionsNeedNames(name: TableName, known: map<string, Column>, columns: seq<Column>,
                                              s: SchemaShape)
    requires Run(ColumnsOps(Adding, name, known, columns), s).Some?
    ensures DistinctNames(columns)
    ensures forall c :: c in columns ==> name in s && c.name !in s[name].columns
    decreases |columns|
  {
    if columns != [] {
      var c, rest := columns[0], columns[1..];
      RunConcat([AddColumn(name, c)], ColumnsOps(Adding, name, known, rest), s);
      AddingNeedsRoom(name, c, s);
      var s' := Run([AddColumn(name, c)], s).value;
      AdditionsNeedNames(name, known, rest, s');
      PrependName(columns);
    }
  }

  lemma PrependName(columns: seq<Column>)
    requires columns != [] && DistinctNames(columns[1..])
    requires forall c :: c in columns[1..] ==> c.name != columns[0].name
    ensures DistinctNames(columns)
  {
    forall i, j | 0 <= i < j < |columns| ensures columns[i].name != columns[j].name {
      assert columns[j] == columns[1..][j - 1] && columns[j] in columns[1..];
      if i > 0 { assert columns[i] == columns[1..][i - 1]; }
    }
  }

  function NameOf(): Column -> seq<string> {
    (c: Column) => [c.name]
  }

  lemma {:induction false} NamesGather(columns: seq<Column>)
    ensures |Gather(NameOf(), columns)| == |columns|
    ensures forall i :: 0 <= i < |columns| ==> Gather(NameOf(), columns)[i] == columns[i].name
  {
    if columns != [] { NamesGather(columns[1..]); }
  }

  lemma NamesPermute(a: seq<Column>, b: seq<Column>)
    requires multiset(a) == multiset(b) && DistinctNames(a)
    ensures DistinctNames(b)
  {
    NamesGather(a);
    NamesGather(b);
    GatherPermutes(NameOf(), a, b);
    DistinctPermutation(Gather(NameOf(), a), Gather(NameOf(), b));
  }

  lemma TableAdditionsRun(name: TableName, live: Table, desired: Table)
    requires RunsSomewhere(TableOps(Adding, name, live, desired))
    ensures DistinctNames(Gained(live, desired))
  {
    var columns := PhaseColumns(Adding, live, desired);
    var s: SchemaShape :| Run(TableOps(Adding, name, live, desired), s).Some?;
    AdditionsNeedNames(name, ColumnsByName(desired.columns), columns, s);
    NamesPermute(columns, Gained(live, desired));
  }

  lemma {:induction false} AdditionsRun(names: seq<TableName>, live: Tables, desired: Tables, n: TableName)
    requires n in names && n in live && n in desired
    requires RunsSomewhere(PhaseOps(Adding, names, live, desired))
    ensures DistinctNames(Gained(live[n], desired[n]))
    decreases |names|
  {
    PhaseOpsCons(Adding, names, live, desired);
    PartsRunSomewhere(TableOpsIfRetained(Adding, names[0], live, desired), PhaseOps(Adding, names[1..], live, desired));
    if names[0] == n {
      TableAdditionsRun(n, live[n], desired[n]);
    } else {
      AdditionsRun(names[1..], live, desired, n);
    }
  }

  // ----- the whole of `up` -----

  lemma AdditionsRunFirst(live: Tables, desired: Tables)
    requires RunsSomewhere(ColumnPhases(live, desired))
    ensures RunsSomewhere(PhaseOps(Adding, Names(desired), live, desired))
  {
    var a, b := PhaseOps(Adding, Names(desired), live, desired), PhaseOps(Retyping, Names(live), live, desired);
    var c, d := PhaseOps(Renulling, Names(live), live, desired), PhaseOps(Removing, Names(live), live, desired);
    PartsRunSomewhere(a + b + c, d);
    PartsRunSomewhere(a + b, c);
    PartsRunSomewhere(a, b);
  }

  /** What creates and changes tables runs only if names are apart. */
  lemma EarlyNeedsNames(live: Tables, desired: Tables, s: SchemaShape)
    requires Run(CreateOps(Names(desired), live, desired) + ColumnPhases(live, desired), s).Some?
    ensures NamesAreApart(live, desired)
  {
    PartsRun(CreateOps(Names(desired), live, desired), ColumnPhases(live, desired), s);
    AdditionsRunFirst(live, desired);
    forall n | n in desired && n !in live ensures Declarable(desired[n]) {
      CreationsRun(Names(desired), live, desired, n);
    }
    forall n | n in desired && n in live ensures DistinctNames(Gained(live[n], desired[n])) {
      AdditionsRun(Names(desired), live, desired, n);
    }
  }

  lemma RunNeedsNames(order: seq<TableName>, live: Tables, desired: Tables, s: SchemaShape)
    requires forall n :: n in order ==> n in live
    requires Run(UpOps(order, live, desired), s).Some?
    ensures NamesAreApart(live, desired)
  {
    RunConcat(CreateOps(Names(desired), live, desired) + ColumnPhases(live, desired), DropOps(order, live), s);
    EarlyNeedsNames(live, desired, s);
  }

  /** Running all of `up` reaches the desired schema, or is refused on the way
    * exactly if a name is declared twice where a column is created.
    */
  lemma UpRunsExactly(order: seq<TableName>, live: Tables, desired: Tables)
    requires ValidTables(live) && FiledTables(desired) && SamePrimaryKeys(live, desired)
    requires Drops(order, live, desired)
    ensures Run(UpOps(order, live, desired), ShapeOf(live))
         == if NamesAreApart(live, desired) then Some(ShapeOf(desired)) else None
  {
    if NamesAreApart(live, desired) {
      UpReachesDesired(order, live, desired);
    } else if Run(UpOps(order, live, desired), ShapeOf(live)).Some? {
      RunNeedsNames(order, live, desired, ShapeOf(live));
    }
  }
}
