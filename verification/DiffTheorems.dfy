/** The promises of the planner, for every pair of schemas. */
module DiffTheorems {
  import opened Wrappers
  import opened Orders
  import opened Schema
  import opened Graphs
  import opened DropOrder
  import opened DiffPlan
  import opened DiffMeaning
  import opened DiffNames

  // ----- when a plan exists -----

  lemma {:induction false} FirstMissingFinds(key: seq<string>, columns: map<string, Column>)
    ensures FirstMissing(key, columns).None? <==> forall k :: k in key ==> k in columns
  {
    if key != [] { FirstMissingFinds(key[1..], columns); }
  }

  ghost predicate KeyKept(live: Table, desired: Table) {
    && live.primaryKey == desired.primaryKey
    && forall k :: k in live.primaryKey ==> k in ColumnsByName(desired.columns)
  }

  ghost predicate KeysKept(live: Tables, desired: Tables) {
    forall n :: n in live && n in desired ==> KeyKept(live[n], desired[n])
  }

  lemma PrimaryKeyErrorMeans(name: TableName, live: Tables, desired: Tables)
    requires name in live
    ensures PrimaryKeyError(name, live, desired).None? <==>
      (name in desired ==> KeyKept(live[name], desired[name]))
  {
    if name in desired { FirstMissingFinds(live[name].primaryKey, ColumnsByName(desired[name].columns)); }
  }

  lemma {:induction false} FirstPrimaryKeyErrorFinds(names: seq<TableName>, live: Tables, desired: Tables)
    requires forall n :: n in names ==> n in live
    ensures FirstPrimaryKeyError(names, live, desired).None? <==>
              forall n :: n in names ==> PrimaryKeyError(n, live, desired).None?
  {
    if names != [] { FirstPrimaryKeyErrorFinds(names[1..], live, desired); }
  }

  /** The table whose key is reported, and none before it. */
  ghost predicate ReportsFirst(names: seq<TableName>, live: Tables, desired: Tables, error: DiffError, i: nat)
    requires forall n :: n in names ==> n in live
  {
    i < |names| && PrimaryKeyError(names[i], live, desired) == Some(error)
    && forall j :: 0 <= j < i ==> PrimaryKeyError(names[j], live, desired).None?
  }

  lemma {:induction false} FirstPrimaryKeyErrorIs(names: seq<TableName>, live: Tables, desired: Tables) returns (i: nat)
    requires forall n :: n in names ==> n in live
    requires FirstPrimaryKeyError(names, live, desired).Some?
    ensures ReportsFirst(names, live, desired, FirstPrimaryKeyError(names, live, desired).value, i)
  {
    if PrimaryKeyError(names[0], live, desired).Some? {
      i := 0;
    } else {
      var k := FirstPrimaryKeyErrorIs(names[1..], live, desired);
      i := k + 1;
      forall j | 0 <= j < i ensures PrimaryKeyError(names[j], live, desired).None? {
        if j > 0 { assert names[1..][j - 1] == names[j]; }
      }
    }
  }

  lemma FirstReportIsLeast(names: seq<TableName>, live: Tables, desired: Tables, error: DiffError, i: nat, n: TableName)
    requires (forall x :: x in names <==> x in live) && NamesAscend(names)
    requires ReportsFirst(names, live, desired, error, i) && n in live && PrimaryKeyError(n, live, desired).Some?
    ensures TableLe(names[i], n)
  {
    var j :| 0 <= j < |names| && names[j] == n;
    assert i <= j;
  }

  /** The reported key is that of the least table whose key is wrong. */
  lemma LeastTableIsReported(live: Tables, desired: Tables) returns (name: TableName)
    requires FirstPrimaryKeyError(Names(live), live, desired).Some?
    ensures name in live && PrimaryKeyError(name, live, desired) == FirstPrimaryKeyError(Names(live), live, desired)
    ensures forall n :: n in live && PrimaryKeyError(n, live, desired).Some? ==> TableLe(name, n)
  {
    NamesInOrder(live);
    name := LeastAmong(Names(live), live, desired);
  }

  lemma LeastAmong(names: seq<TableName>, live: Tables, desired: Tables) returns (name: TableName)
    requires (forall n :: n in names <==> n in live) && NamesAscend(names)
    requires FirstPrimaryKeyError(names, live, desired).Some?
    ensures name in live && PrimaryKeyError(name, live, desired) == FirstPrimaryKeyError(names, live, desired)
    ensures forall n :: n in live && PrimaryKeyError(n, live, desired).Some? ==> TableLe(name, n)
  {
    var error := FirstPrimaryKeyError(names, live, desired).value;
    var i := FirstPrimaryKeyErrorIs(names, live, desired);
    name := names[i];
    forall n | n in live && PrimaryKeyError(n, live, desired).Some? ensures TableLe(name, n) {
      FirstReportIsLeast(names, live, desired, error, i, n);
    }
  }

  ghost predicate NamesAscend(names: seq<TableName>) {
    forall i, j :: 0 <= i <= j < |names| ==> TableLe(names[i], names[j])
  }

  lemma NamesInOrder(tables: Tables)
    ensures NamesAscend(Names(tables))
  {
    TableLeIsTotalOrder();
    SortedSetIsSorted(TableLe, tables.Keys);
  }

  lemma KeysKeptExactly(live: Tables, desired: Tables)
    ensures FirstPrimaryKeyError(Names(live), live, desired).None? <==> KeysKept(live, desired)
  {
    FirstPrimaryKeyErrorFinds(Names(live), live, desired);
    forall n | n in live
      ensures PrimaryKeyError(n, live, desired).None? <==>
        (n in desired ==> KeyKept(live[n], desired[n]))
    {
      PrimaryKeyErrorMeans(n, live, desired);
    }
  }

  ghost predicate NothingRetainedRefers(dropped: set<TableName>, foreignKeys: seq<ForeignKey>) {
    forall k :: k in foreignKeys && k.parent in dropped ==> k.child in dropped
  }

  lemma {:induction false} FirstRetainedReferenceFinds(dropped: set<TableName>, foreignKeys: seq<ForeignKey>)
    ensures FirstRetainedReference(dropped, foreignKeys).None? <==> NothingRetainedRefers(dropped, foreignKeys)
  {
    if foreignKeys != [] {
      FirstRetainedReferenceFinds(dropped, foreignKeys[1..]);
      assert forall k :: k in foreignKeys <==> k == foreignKeys[0] || k in foreignKeys[1..];
    }
  }

  /** A plan exists exactly when no retained table changes its primary key or
    * refers to a dropped one, and the dropped ones do not refer in a circle.
    */
  lemma PlanExistsExactly(live: Tables, foreignKeys: seq<ForeignKey>, desired: Tables)
    ensures var dropped := DroppedTables(live, desired);
      Plan(live, foreignKeys, desired).Success? <==>
        KeysKept(live, desired) && NothingRetainedRefers(dropped, foreignKeys)
        && !HasCycle(dropped, DroppedEdges(dropped, foreignKeys))
  {
    var dropped := DroppedTables(live, desired);
    KeysKeptExactly(live, desired);
    FirstRetainedReferenceFinds(dropped, foreignKeys);
    GreedyCorrect(dropped, DroppedEdges(dropped, foreignKeys));
  }

  /** Between schemas as their readers deliver them, the second key check never fires. */
  lemma KeysKeptWhenEqual(live: Tables, desired: Tables)
    requires FiledTables(desired)
    ensures KeysKept(live, desired) <==> SamePrimaryKeys(live, desired)
  {
    forall n | n in desired ensures FiledTable(n, desired[n]) {}
  }

  lemma PlanParts(live: Tables, foreignKeys: seq<ForeignKey>, desired: Tables, plan: MigrationPlan)
    returns (order: seq<TableName>)
    requires Plan(live, foreignKeys, desired) == Success(plan)
    ensures FirstPrimaryKeyError(Names(live), live, desired).None?
    ensures FirstRetainedReference(DroppedTables(live, desired), foreignKeys).None?
    ensures DroppedOrder(DroppedTables(live, desired), foreignKeys) == Success(order)
    ensures forall n :: n in order <==> n in DroppedTables(live, desired)
    ensures plan.up == UpOps(order, live, desired) && plan.down == Inverses(plan.up)
  {
    OrderIsLive(live, desired, foreignKeys);
    order := DroppedOrder(DroppedTables(live, desired), foreignKeys).value;
  }

  lemma OrderIsChildFirst(dropped: set<TableName>, foreignKeys: seq<ForeignKey>, order: seq<TableName>)
    requires DroppedOrder(dropped, foreignKeys) == Success(order)
    ensures IsChildFirst(order, dropped, DroppedEdges(dropped, foreignKeys)) && Distinct(order)
  {
    GreedyIsChildFirst(dropped, DroppedEdges(dropped, foreignKeys));
  }

  lemma PlanDrops(live: Tables, foreignKeys: seq<ForeignKey>, desired: Tables, plan: MigrationPlan)
    returns (order: seq<TableName>)
    requires Plan(live, foreignKeys, desired) == Success(plan)
    ensures SamePrimaryKeys(live, desired) && Drops(order, live, desired)
    ensures IsChildFirst(order, DroppedTables(live, desired), DroppedEdges(DroppedTables(live, desired), foreignKeys))
    ensures NothingRetainedRefers(DroppedTables(live, desired), foreignKeys)
    ensures plan.up == UpOps(order, live, desired) && plan.down == Inverses(plan.up)
  {
    order := PlanParts(live, foreignKeys, desired, plan);
    KeysKeptExactly(live, desired);
    FirstRetainedReferenceFinds(DroppedTables(live, desired), foreignKeys);
    OrderIsChildFirst(DroppedTables(live, desired), foreignKeys, order);
  }

  // ----- what a plan does -----

  lemma ValidLive(live: Tables)
    requires ValidTables(live)
    ensures ValidShape(ShapeOf(live))
  {
    forall n, k | n in live && k in live[n].primaryKey ensures k in ShapeOf(live)[n].columns {
      assert ValidTable(n, live[n]);
    }
  }

  /** Running `up` reaches the desired schema step by step, unless a new table
    * repeats the name of a column or of a key column, or a retained table gains two
    * columns of one name: then, and only then, an operation is refused on the way.
    */
  lemma UpAppliesExactly(live: Tables, foreignKeys: seq<ForeignKey>, desired: Tables, plan: MigrationPlan)
    requires ValidTables(live) && FiledTables(desired)
    requires Plan(live, foreignKeys, desired) == Success(plan)
    ensures Run(plan.up, ShapeOf(live)) == if NamesAreApart(live, desired) then Some(ShapeOf(desired)) else None
  {
    var order := PlanDrops(live, foreignKeys, desired, plan);
    UpRunsExactly(order, live, desired);
  }

  /** Every operation of `up` applies where it runs and the whole of it reaches
    * the desired schema; `down` then applies step by step and restores the live
    * schema, passing through the same schemas in reverse.
    */
  lemma PlanIsReversible(live: Tables, foreignKeys: seq<ForeignKey>, desired: Tables, plan: MigrationPlan)
    requires ValidTables(live) && FiledTables(desired) && NamesAreApart(live, desired)
    requires Plan(live, foreignKeys, desired) == Success(plan)
    ensures Run(plan.up, ShapeOf(live)) == Some(ShapeOf(desired))
    ensures Run(plan.down, ShapeOf(desired)) == Some(ShapeOf(live))
    ensures Retraces(plan, ShapeOf(live), ShapeOf(desired))
  {
    var order := PlanDrops(live, foreignKeys, desired, plan);
    UpReachesDesired(order, live, desired);
    ValidLive(live);
    UndoesFrom(plan, ShapeOf(live), ShapeOf(desired));
  }

  // ----- a name declared twice -----

  const USERS := TableName("public", "users")
  const ID := Column("id", BigInt, false, 0)
  const LIVE_USERS := map[USERS := Table(USERS, [ID], ["id"])]

  /** The retained table gains `note` twice. */
  const TWICE := map[USERS := Table(USERS, [ID, Column("note", Text, true, 1), Column("note", Text, true, 2)], ["id"])]

  lemma NoCycleWithoutNodes(edges: Edges)
    ensures !HasCycle({}, edges)
  {
    forall walk: seq<TableName> ensures !IsCycle(walk, {}, edges) {
      if |walk| >= 2 { assert walk[0] !in {}; }
    }
  }

  lemma TwiceIsFiled()
    ensures ValidTables(LIVE_USERS) && FiledTables(TWICE)
  {
    assert ID in LIVE_USERS[USERS].columns && ID in TWICE[USERS].columns;
  }

  lemma TwiceIsPlanned()
    ensures Plan(LIVE_USERS, [], TWICE).Success?
  {
    TwiceIsFiled();
    KeysKeptWhenEqual(LIVE_USERS, TWICE);
    assert DroppedTables(LIVE_USERS, TWICE) == {};
    NoCycleWithoutNodes(DroppedEdges({}, []));
    PlanExistsExactly(LIVE_USERS, [], TWICE);
  }

  /** Such a declaration is planned, and its `up` is refused by a database. */
  lemma RepeatedColumnIsRefused()
    ensures ValidTables(LIVE_USERS) && FiledTables(TWICE)
    ensures Plan(LIVE_USERS, [], TWICE).Success?
    ensures Run(Plan(LIVE_USERS, [], TWICE).value.up, ShapeOf(LIVE_USERS)) == None
  {
    TwiceIsFiled();
    TwiceIsPlanned();
    GainsTwice();
    var plan := Plan(LIVE_USERS, [], TWICE).value;
    UpAppliesExactly(LIVE_USERS, [], TWICE, plan);
  }

  lemma GainsTwice()
    ensures !NamesAreApart(LIVE_USERS, TWICE)
  {
    var columns := TWICE[USERS].columns;
    var known := ColumnsByName(LIVE_USERS[USERS].columns);
    assert known.Keys == {"id"};
    assert columns[1..] == [columns[1], columns[2]] && columns[2..] == [columns[2]];
    assert Only(columns[1..][1..], known, false) == [columns[2]];
    assert Only(columns[1..], known, false) == [columns[1], columns[2]];
    assert Gained(LIVE_USERS[USERS], TWICE[USERS]) == [columns[1], columns[2]];
  }

  /** With the last operations undone, the schema is what the kept ones had reached. */
  ghost predicate RetracesAt(plan: MigrationPlan, from: SchemaShape, to: SchemaShape, undone: nat, kept: nat)
    requires |plan.down| == |plan.up| == undone + kept
  {
    Run(plan.up[..kept], from).Some? && Run(plan.down[..undone], to) == Run(plan.up[..kept], from)
  }

  ghost predicate Retraces(plan: MigrationPlan, from: SchemaShape, to: SchemaShape) {
    && |plan.down| == |plan.up|
    && forall undone: nat, kept: nat :: undone + kept == |plan.up| ==> RetracesAt(plan, from, to, undone, kept)
  }

  lemma UndoesFrom(plan: MigrationPlan, from: SchemaShape, to: SchemaShape)
    requires ValidShape(from) && Run(plan.up, from) == Some(to) && plan.down == Inverses(plan.up)
    ensures Run(plan.down, to) == Some(from) && Retraces(plan, from, to)
  {
    InversesUndo(plan.up, from);
    forall undone: nat, kept: nat | undone + kept == |plan.up| ensures RetracesAt(plan, from, to, undone, kept) {
      InversesRetrace(plan.up, from, undone, kept);
    }
  }

  // ----- an empty plan -----

  lemma {:induction false} NoColumnOps(phase: Phase, name: TableName, known: map<string, Column>, columns: seq<Column>)
    requires phase.Retyping? || phase.Renulling?
    requires forall c :: c in columns ==> c.name in known && ShapeOfColumn(known[c.name]) == ShapeOfColumn(c)
    ensures ColumnsOps(phase, name, known, columns) == []
  {
    if columns != [] { NoColumnOps(phase, name, known, columns[1..]); }
  }

  lemma SameNames(name: TableName, live: Table, desired: Table, c: Column)
    requires ValidTable(name, live)
    requires ShapeOfTable(live) == ShapeOfTable(desired)
    ensures c in live.columns ==>
      c.name in ColumnsByName(desired.columns)
      && ShapeOfColumn(ColumnsByName(desired.columns)[c.name]) == ShapeOfColumn(c)
    ensures c in desired.columns ==> c.name in ColumnsByName(live.columns)
  {
    LookShape(live, c.name);
    LookShape(desired, c.name);
    if c in live.columns { ColumnsByNameHolds(name, live, c); }
  }

  lemma NoMembers<T>(s: seq<T>)
    requires forall x :: x !in s
    ensures s == []
  {
    if s != [] { FirstIsMember(s); }
  }

  lemma FirstIsMember<T>(s: seq<T>)
    requires s != []
    ensures s[0] in s
  {}

  lemma NoTableOps(phase: Phase, name: TableName, live: Table, desired: Table)
    requires ValidTable(name, live)
    requires ShapeOfTable(live) == ShapeOfTable(desired)
    ensures TableOps(phase, name, live, desired) == []
  {
    PhaseColumnsMembers(phase, live, desired);
    var columns := PhaseColumns(phase, live, desired);
    forall c
      ensures c in live.columns ==>
        c.name in ColumnsByName(desired.columns)
        && ShapeOfColumn(ColumnsByName(desired.columns)[c.name]) == ShapeOfColumn(c)
      ensures c in desired.columns ==> c.name in ColumnsByName(live.columns)
    {
      SameNames(name, live, desired, c);
    }
    if phase.Retyping? || phase.Renulling? {
      NoColumnOps(phase, name, ColumnsByName(desired.columns), columns);
    } else {
      assert forall c :: c !in columns;
      NoMembers(columns);
    }
  }

  ghost predicate SameShapes(live: Tables, desired: Tables) {
    forall n :: n in live && n in desired ==> ShapeOfTable(live[n]) == ShapeOfTable(desired[n])
  }

  lemma {:induction false} NoPhaseOps(phase: Phase, names: seq<TableName>, live: Tables, desired: Tables)
    requires ValidTables(live) && SameShapes(live, desired)
    ensures PhaseOps(phase, names, live, desired) == []
  {
    if names != [] {
      NoPhaseOps(phase, names[1..], live, desired);
      if names[0] in live && names[0] in desired {
        NoTableOps(phase, names[0], live[names[0]], desired[names[0]]);
      }
    }
  }

  lemma {:induction false} NoCreateOps(names: seq<TableName>, live: Tables, desired: Tables)
    requires forall n :: n in names ==> n in desired && n in live
    ensures CreateOps(names, live, desired) == []
  {
    if names != [] { NoCreateOps(names[1..], live, desired); }
  }

  /** A plan is empty exactly when there is nothing to change. */
  lemma EmptyPlanExactly(live: Tables, foreignKeys: seq<ForeignKey>, desired: Tables, plan: MigrationPlan)
    requires ValidTables(live) && FiledTables(desired)
    requires Plan(live, foreignKeys, desired) == Success(plan)
    ensures plan.up == [] <==> ShapeOf(live) == ShapeOf(desired)
  {
    var order := PlanDrops(live, foreignKeys, desired, plan);
    if plan.up == [] { EmptyUpReaches(order, live, desired); }
    if ShapeOf(live) == ShapeOf(desired) { NothingToDo(order, live, desired); }
  }

  lemma EmptyUpReaches(order: seq<TableName>, live: Tables, desired: Tables)
    requires ValidTables(live) && FiledTables(desired) && SamePrimaryKeys(live, desired)
    requires Drops(order, live, desired) && UpOps(order, live, desired) == []
    ensures ShapeOf(live) == ShapeOf(desired)
  {
    UpRunsExactly(order, live, desired);
    assert Run([], ShapeOf(live)) == Some(ShapeOf(live));
  }

  lemma NothingToDo(order: seq<TableName>, live: Tables, desired: Tables)
    requires ValidTables(live) && ShapeOf(live) == ShapeOf(desired)
    requires Drops(order, live, desired)
    ensures UpOps(order, live, desired) == []
  {
    SameTables(live, desired);
    NoCreateOps(Names(desired), live, desired);
    NoPhaseOps(Adding, Names(desired), live, desired);
    NoPhaseOps(Retyping, Names(live), live, desired);
    NoPhaseOps(Renulling, Names(live), live, desired);
    NoPhaseOps(Removing, Names(live), live, desired);
    assert DroppedTables(live, desired) == {};
    assert forall n :: n !in order;
    NoMembers(order);
  }

  lemma SameTables(live: Tables, desired: Tables)
    requires ShapeOf(live) == ShapeOf(desired)
    ensures live.Keys == desired.Keys && SameShapes(live, desired)
  {
    assert ShapeOf(live).Keys == live.Keys && ShapeOf(desired).Keys == desired.Keys;
    forall n | n in live && n in desired ensures ShapeOfTable(live[n]) == ShapeOfTable(desired[n]) {
      assert ShapeOf(live)[n] == ShapeOf(desired)[n];
    }
  }

  // ----- references on the way -----

  /** No table still present has a listed foreign key to a live table that is gone. */
  ghost predicate NothingDangles(s: SchemaShape, live: Tables, foreignKeys: seq<ForeignKey>) {
    forall k :: k in foreignKeys && k.child in s && k.parent in live ==> k.parent in s
  }

  lemma {:induction false} RunKeepsTables(ops: seq<Operation>, s: SchemaShape)
    requires Run(ops, s).Some? && forall op :: op in ops ==> !op.DropTable?
    ensures s.Keys <= Run(ops, s).value.Keys
  {
    if ops != [] {
      assert ops[0] in ops;
      RunKeepsTables(ops[1..], Apply(ops[0], s).value);
    }
  }

  lemma DropOpsTake(order: seq<TableName>, live: Tables, k: nat)
    requires forall n :: n in order ==> n in live
    requires k <= |order|
    ensures DropOps(order, live)[..k] == DropOps(order[..k], live)
  {
  }

  lemma {:induction false} ColumnsOpsKeepTables(phase: Phase, name: TableName, known: map<string, Column>,
                                                columns: seq<Column>)
    requires phase.Retyping? || phase.Renulling? ==> forall c :: c in columns ==> c.name in known
    ensures forall op :: op in ColumnsOps(phase, name, known, columns) ==> !op.DropTable? && !op.CreateTable?
  {
    if columns != [] { ColumnsOpsKeepTables(phase, name, known, columns[1..]); }
  }

  lemma {:induction false} PhaseOpsKeepTables(phase: Phase, names: seq<TableName>, live: Tables, desired: Tables)
    ensures forall op :: op in PhaseOps(phase, names, live, desired) ==> !op.DropTable? && !op.CreateTable?
  {
    if names != [] {
      PhaseOpsKeepTables(phase, names[1..], live, desired);
      var n := names[0];
      if n in live && n in desired {
        PhaseColumnsMembers(phase, live[n], desired[n]);
        ColumnsOpsKeepTables(phase, n, ColumnsByName(desired[n].columns), PhaseColumns(phase, live[n], desired[n]));
      }
    }
  }

  lemma {:induction false} CreateOpsCreate(names: seq<TableName>, live: Tables, desired: Tables)
    requires forall n :: n in names ==> n in desired
    ensures forall op :: op in CreateOps(names, live, desired) ==> op.CreateTable?
  {
    if names != [] { CreateOpsCreate(names[1..], live, desired); }
  }

  lemma EarlyOpsKeepTables(live: Tables, desired: Tables)
    ensures forall op :: op in CreateOps(Names(desired), live, desired) + ColumnPhases(live, desired) ==> !op.DropTable?
  {
    CreateOpsCreate(Names(desired), live, desired);
    PhaseOpsKeepTables(Adding, Names(desired), live, desired);
    PhaseOpsKeepTables(Retyping, Names(live), live, desired);
    PhaseOpsKeepTables(Renulling, Names(live), live, desired);
    PhaseOpsKeepTables(Removing, Names(live), live, desired);
  }

  lemma ChildGoneWithParent(order: seq<TableName>, k: nat, dropped: set<TableName>, foreignKeys: seq<ForeignKey>,
                            f: ForeignKey)
    requires IsChildFirst(order, dropped, DroppedEdges(dropped, foreignKeys)) && k <= |order|
    requires NothingRetainedRefers(dropped, foreignKeys)
    requires f in foreignKeys && f.parent in order[..k]
    ensures f.child in order[..k]
  {
    var i :| 0 <= i < k && order[i] == f.parent;
    assert f.parent in order;
    assert f.child in order;
    var j :| 0 <= j < |order| && order[j] == f.child;
    assert Edge(order[j], order[i]) in DroppedEdges(dropped, foreignKeys);
    assert order[..k][j] == f.child;
  }

  /** After dropping a prefix of a child-first order, nothing left refers to what is gone. */
  lemma DroppingPrefixIsSafe(order: seq<TableName>, k: nat, live: Tables, desired: Tables,
                             foreignKeys: seq<ForeignKey>, s: SchemaShape)
    requires k <= |order| && live.Keys <= s.Keys
    requires IsChildFirst(order, DroppedTables(live, desired), DroppedEdges(DroppedTables(live, desired), foreignKeys))
    requires NothingRetainedRefers(DroppedTables(live, desired), foreignKeys)
    ensures NothingDangles(Without(order[..k], s), live, foreignKeys)
  {
    forall f | f in foreignKeys && f.child in Without(order[..k], s) && f.parent in live
      ensures f.parent in Without(order[..k], s)
    {
      if f.parent in order[..k] {
        ChildGoneWithParent(order, k, DroppedTables(live, desired), foreignKeys, f);
      }
    }
  }

  lemma EarlyPrefixIsSafe(early: seq<Operation>, kept: nat, live: Tables, foreignKeys: seq<ForeignKey>, s: SchemaShape)
    requires forall op :: op in early ==> !op.DropTable?
    requires kept <= |early| && Run(early[..kept], ShapeOf(live)) == Some(s)
    ensures NothingDangles(s, live, foreignKeys)
  {
    RunKeepsTables(early[..kept], ShapeOf(live));
  }

  /** No foreign key dangles at any point that a successful plan's `up` reaches. */
  lemma NothingEverDangles(live: Tables, foreignKeys: seq<ForeignKey>, desired: Tables, plan: MigrationPlan,
                           kept: nat, s: SchemaShape)
    requires ValidTables(live) && FiledTables(desired)
    requires Plan(live, foreignKeys, desired) == Success(plan)
    requires kept <= |plan.up| && Run(plan.up[..kept], ShapeOf(live)) == Some(s)
    ensures NothingDangles(s, live, foreignKeys)
  {
    var order := PlanDrops(live, foreignKeys, desired, plan);
    var early := CreateOps(Names(desired), live, desired) + ColumnPhases(live, desired);
    EarlyOpsKeepTables(live, desired);
    if Run(early, ShapeOf(live)).Some? {
      EarlyNeedsNames(live, desired, ShapeOf(live));
      EarlyReaches(live, desired, early, SchemaAt(4, live, desired));
    }
    PrefixIsSafe(order, kept, live, desired, foreignKeys, early, DropOps(order, live), s);
  }

  /** Nor at any point of `down`: a parent is re-created before any child that refers to it. */
  lemma NothingDanglesGoingDown(live: Tables, foreignKeys: seq<ForeignKey>, desired: Tables, plan: MigrationPlan,
                                undone: nat, s: SchemaShape)
    requires ValidTables(live) && FiledTables(desired) && NamesAreApart(live, desired)
    requires Plan(live, foreignKeys, desired) == Success(plan)
    requires undone <= |plan.down| && Run(plan.down[..undone], ShapeOf(desired)) == Some(s)
    ensures NothingDangles(s, live, foreignKeys)
  {
    PlanIsReversible(live, foreignKeys, desired, plan);
    var kept: nat := |plan.up| - undone;
    assert RetracesAt(plan, ShapeOf(live), ShapeOf(desired), undone, kept);
    NothingEverDangles(live, foreignKeys, desired, plan, kept, s);
  }

  lemma PrefixIsSafe(order: seq<TableName>, kept: nat, live: Tables, desired: Tables, foreignKeys: seq<ForeignKey>,
                     early: seq<Operation>, drops: seq<Operation>, s: SchemaShape)
    requires ValidTables(live) && Drops(order, live, desired) && drops == DropOps(order, live)
    requires IsChildFirst(order, DroppedTables(live, desired), DroppedEdges(DroppedTables(live, desired), foreignKeys))
    requires NothingRetainedRefers(DroppedTables(live, desired), foreignKeys)
    requires forall op :: op in early ==> !op.DropTable?
    requires Run(early, ShapeOf(live)).Some? ==> Run(early, ShapeOf(live)) == Some(SchemaAt(4, live, desired))
    requires kept <= |early + drops| && Run((early + drops)[..kept], ShapeOf(live)) == Some(s)
    ensures NothingDangles(s, live, foreignKeys)
  {
    TakeConcat(early, drops, kept);
    if kept <= |early| {
      EarlyPrefixIsSafe(early, kept, live, foreignKeys, s);
    } else {
      FirstPartRuns(early, drops[..kept - |early|], ShapeOf(live));
      LatePrefix(order, kept - |early|, live, desired, foreignKeys, early, s);
    }
  }

  lemma FirstPartRuns(a: seq<Operation>, b: seq<Operation>, s: SchemaShape)
    requires Run(a + b, s).Some?
    ensures Run(a, s).Some?
  {
    RunConcat(a, b, s);
  }

  lemma TakeConcat(a: seq<Operation>, b: seq<Operation>, k: nat)
    requires k <= |a + b|
    ensures k <= |a| ==> (a + b)[..k] == a[..k]
    ensures k > |a| ==> (a + b)[..k] == a + b[..k - |a|]
  {}

  lemma LatePrefix(order: seq<TableName>, j: nat, live: Tables, desired: Tables, foreignKeys: seq<ForeignKey>,
                   early: seq<Operation>, s: SchemaShape)
    requires ValidTables(live) && Drops(order, live, desired) && j <= |DropOps(order, live)|
    requires IsChildFirst(order, DroppedTables(live, desired), DroppedEdges(DroppedTables(live, desired), foreignKeys))
    requires NothingRetainedRefers(DroppedTables(live, desired), foreignKeys)
    requires Run(early, ShapeOf(live)) == Some(SchemaAt(4, live, desired))
    requires Run(early + DropOps(order, live)[..j], ShapeOf(live)) == Some(s)
    ensures NothingDangles(s, live, foreignKeys)
  {
    var s4 := SchemaAt(4, live, desired);
    RunConcatSome(early, DropOps(order, live)[..j], ShapeOf(live), s4);
    DropOpsTake(order, live, j);
    DropPrefixRuns(order, j, live, desired, s4);
    DroppingPrefixIsSafe(order, j, live, desired, foreignKeys, s4);
  }

  lemma EarlyReaches(live: Tables, desired: Tables, early: seq<Operation>, s4: SchemaShape)
    requires ValidTables(live) && FiledTables(desired) && NamesAreApart(live, desired) && SamePrimaryKeys(live, desired)
    requires early == CreateOps(Names(desired), live, desired) + ColumnPhases(live, desired)
    requires s4 == SchemaAt(4, live, desired)
    ensures Run(early, ShapeOf(live)) == Some(s4)
  {
    CreateReachesStageZero(live, desired);
    ColumnPhasesAdvance(live, desired);
    RunConcatSome(CreateOps(Names(desired), live, desired), ColumnPhases(live, desired), ShapeOf(live),
                  SchemaAt(0, live, desired));
  }

  lemma DropPrefixRuns(order: seq<TableName>, j: nat, live: Tables, desired: Tables, s: SchemaShape)
    requires ValidTables(live) && Drops(order, live, desired) && j <= |order|
    requires s == SchemaAt(4, live, desired) && forall n :: n in order[..j] ==> n in live
    ensures Run(DropOps(order[..j], live), s) == Some(Without(order[..j], s))
  {
    forall n | n in order[..j]
      ensures n in live && ValidTable(n, live[n]) && n in s && s[n] == ShapeOfTable(live[n])
    {
      assert n in order;
    }
    DropSteps(order[..j], live, s);
  }

  // ----- the order of operations -----

  function Rank(op: Operation): nat {
    match op
    case CreateTable(_) => 0
    case AddColumn(_, _) => 1
    case AlterType(_, _, _, _) => 2
    case SetNotNull(_, _) => 3
    case DropNotNull(_, _) => 3
    case DropColumn(_, _) => 4
    case DropTable(_) => 5
  }

  ghost predicate AllRank(ops: seq<Operation>, rank: nat) {
    forall op :: op in ops ==> Rank(op) == rank
  }

  ghost predicate Ranked(ops: seq<Operation>) {
    forall i, j :: 0 <= i < j < |ops| ==> Rank(ops[i]) <= Rank(ops[j])
  }

  function RankOf(phase: Phase): nat {
    match phase
    case Adding => 1
    case Retyping => 2
    case Renulling => 3
    case Removing => 4
  }

  lemma {:induction false} ColumnsOpsRank(phase: Phase, name: TableName, known: map<string, Column>,
                                          columns: seq<Column>)
    requires phase.Retyping? || phase.Renulling? ==> forall c :: c in columns ==> c.name in known
    ensures AllRank(ColumnsOps(phase, name, known, columns), RankOf(phase))
  {
    if columns != [] { ColumnsOpsRank(phase, name, known, columns[1..]); }
  }

  lemma {:induction false} PhaseOpsRank(phase: Phase, names: seq<TableName>, live: Tables, desired: Tables)
    ensures AllRank(PhaseOps(phase, names, live, desired), RankOf(phase))
  {
    if names != [] {
      PhaseOpsRank(phase, names[1..], live, desired);
      var n := names[0];
      if n in live && n in desired {
        PhaseColumnsMembers(phase, live[n], desired[n]);
        ColumnsOpsRank(phase, n, ColumnsByName(desired[n].columns), PhaseColumns(phase, live[n], desired[n]));
      }
    }
  }

  lemma RankedConcat(a: seq<Operation>, b: seq<Operation>, top: nat)
    requires Ranked(a) && AllRank(b, top) && forall op :: op in a ==> Rank(op) <= top
    ensures Ranked(a + b) && forall op :: op in a + b ==> Rank(op) <= top
  {
    forall i, j | 0 <= i < j < |a + b| ensures Rank((a + b)[i]) <= Rank((a + b)[j]) {
      if j >= |a| { assert (a + b)[j] in b; }
    }
  }

  lemma DropOpsRank(order: seq<TableName>, live: Tables)
    requires forall n :: n in order ==> n in live
    ensures AllRank(DropOps(order, live), 5)
  {}

  /** Tables are created first and dropped last; in between columns are added,
    * retyped, change nullability and are removed, in that order.
    */
  lemma PlanIsPhased(live: Tables, foreignKeys: seq<ForeignKey>, desired: Tables, plan: MigrationPlan)
    requires Plan(live, foreignKeys, desired) == Success(plan)
    ensures Ranked(plan.up)
  {
    var order := PlanParts(live, foreignKeys, desired, plan);
    ColumnPhasesRanked(live, desired);
    CreateOpsCreate(Names(desired), live, desired);
    DropOpsRank(order, live);
    RankedBetween(CreateOps(Names(desired), live, desired), ColumnPhases(live, desired), DropOps(order, live));
  }

  lemma ColumnPhasesRanked(live: Tables, desired: Tables)
    ensures Ranked(ColumnPhases(live, desired))
    ensures forall op :: op in ColumnPhases(live, desired) ==> Rank(op) <= 4
  {
    PhaseOpsRank(Adding, Names(desired), live, desired);
    PhaseOpsRank(Retyping, Names(live), live, desired);
    PhaseOpsRank(Renulling, Names(live), live, desired);
    PhaseOpsRank(Removing, Names(live), live, desired);
    RankedChain(PhaseOps(Adding, Names(desired), live, desired), PhaseOps(Retyping, Names(live), live, desired),
                PhaseOps(Renulling, Names(live), live, desired), PhaseOps(Removing, Names(live), live, desired));
  }

  lemma RankedChain(a: seq<Operation>, b: seq<Operation>, c: seq<Operation>, d: seq<Operation>)
    requires AllRank(a, 1) && AllRank(b, 2) && AllRank(c, 3) && AllRank(d, 4)
    ensures Ranked(a + b + c + d) && forall op :: op in a + b + c + d ==> Rank(op) <= 4
  {
    RankedConcat(a, b, 2);
    RankedConcat(a + b, c, 3);
    RankedConcat(a + b + c, d, 4);
  }

  lemma RankedBetween(first: seq<Operation>, middle: seq<Operation>, last: seq<Operation>)
    requires AllRank(first, 0) && Ranked(middle) && AllRank(last, 5) && forall op :: op in middle ==> Rank(op) <= 4
    ensures Ranked(first + middle + last)
  {
    forall i, j | 0 <= i < j < |first + middle| ensures Rank((first + middle)[i]) <= Rank((first + middle)[j]) {
      if i < |first| { assert (first + middle)[i] in first; }
    }
    RankedConcat(first + middle, last, 5);
  }
}
