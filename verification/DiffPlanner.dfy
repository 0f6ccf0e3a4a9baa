/** The planner as it runs: loops that reject, then push operations phase by
  * phase. Models the loops of `plan_tables_ref` and of the rejections in
  * crates/mads-cli/src/database/diff.rs; `DiffPlan` is their specification.
  */
module DiffPlanner {
  import opened Wrappers
  import opened Orders
  import opened Schema
  import opened DropOrder
  import opened DiffPlan

  lemma PushAssociates(up: seq<Operation>, ops: seq<Operation>, rest: seq<Operation>)
    ensures up + ops + rest == up + (ops + rest)
    ensures ops == [] ==> up + rest == up + (ops + rest)
  {}

  lemma DropOne<T>(s: seq<T>, i: nat)
    requires i < |s|
    ensures s[i..][0] == s[i] && s[i..][1..] == s[i + 1..]
  {}

  method RejectPrimaryKeyChange(name: TableName, live: Tables, desired: Tables) returns (r: Option<DiffError>)
    requires name in live && name in desired
    ensures r == PrimaryKeyError(name, live, desired)
  {
    if live[name].primaryKey != desired[name].primaryKey {
      return Some(PrimaryKeyChanged(name));
    }
    var missing := FirstMissing(live[name].primaryKey, ColumnsByName(desired[name].columns));
    return if missing.None? then None else Some(PrimaryKeyColumnDropped(name, missing.value));
  }

  ghost predicate KeysAreKept(names: seq<TableName>, live: Tables, desired: Tables, k: nat) {
    forall j | 0 <= j < k && j < |names| && names[j] in live :: PrimaryKeyError(names[j], live, desired).None?
  }

  lemma {:induction false} FirstKeyError(names: seq<TableName>, live: Tables, desired: Tables, k: nat)
    requires (forall n :: n in names ==> n in live) && k <= |names| && KeysAreKept(names, live, desired, k)
    ensures FirstPrimaryKeyError(names, live, desired) == FirstPrimaryKeyError(names[k..], live, desired)
  {
    if k == 0 {
      assert names[0..] == names;
    } else {
      FirstKeyError(names, live, desired, k - 1);
      assert names[k - 1..][0] == names[k - 1] && names[k - 1..][1..] == names[k..];
    }
  }

  /** The error of the next name is the first one, if it is an error. */
  lemma NextKeyError(names: seq<TableName>, live: Tables, desired: Tables, k: nat)
    requires (forall n :: n in names ==> n in live) && k < |names| && KeysAreKept(names, live, desired, k)
    ensures var error := PrimaryKeyError(names[k], live, desired);
            if error.Some? then FirstPrimaryKeyError(names, live, desired) == error
            else KeysAreKept(names, live, desired, k + 1)
  {
    FirstKeyError(names, live, desired, k);
  }

  lemma NoKeyError(names: seq<TableName>, live: Tables, desired: Tables)
    requires (forall n :: n in names ==> n in live) && KeysAreKept(names, live, desired, |names|)
    ensures FirstPrimaryKeyError(names, live, desired).None?
  {
    FirstKeyError(names, live, desired, |names|);
  }

  method RejectPrimaryKeyChanges(live: Tables, desired: Tables) returns (r: Option<DiffError>)
    ensures r == FirstPrimaryKeyError(Names(live), live, desired)
  {
    var names := Names(live);
    for i := 0 to |names|
      invariant KeysAreKept(names, live, desired, i)
    {
      var name := names[i];
      NextKeyError(names, live, desired, i);
      if name in desired {
        r := RejectPrimaryKeyChange(name, live, desired);
        if r.Some? {
          return;
        }
      }
    }
    NoKeyError(names, live, desired);
    return None;
  }

  method RejectRetainedReferences(dropped: set<TableName>, foreignKeys: seq<ForeignKey>) returns (r: Option<DiffError>)
    ensures r == FirstRetainedReference(dropped, foreignKeys)
  {
    for i := 0 to |foreignKeys|
      invariant FirstRetainedReference(dropped, foreignKeys) == FirstRetainedReference(dropped, foreignKeys[i..])
    {
      if foreignKeys[i].parent in dropped && foreignKeys[i].child !in dropped {
        return Some(RetainedReference(foreignKeys[i]));
      }
      assert foreignKeys[i..][1..] == foreignKeys[i + 1..];
    }
    return None;
  }

  lemma PushesCreate(up: seq<Operation>, names: seq<TableName>, live: Tables, desired: Tables, i: nat)
    requires i < |names| && forall n :: n in names ==> n in desired
    ensures up + CreateOps(names[i..], live, desired)
         == up + (if names[i] !in live then [CreateTable(desired[names[i]])] else [])
            + CreateOps(names[i + 1..], live, desired)
  {
    DropOne(names, i);
  }

  method PushCreates(before: seq<Operation>, names: seq<TableName>, live: Tables, desired: Tables)
    returns (up: seq<Operation>)
    requires forall n :: n in names ==> n in desired
    ensures up == before + CreateOps(names, live, desired)
  {
    up := before;
    assert names[0..] == names;
    for i := 0 to |names|
      invariant up + CreateOps(names[i..], live, desired) == before + CreateOps(names, live, desired)
    {
      var name := names[i];
      PushesCreate(up, names, live, desired, i);
      if name !in live {
        up := up + [CreateTable(desired[name])];
      } else {
        assert up + [] == up;
      }
    }
  }

  method PushAdditions(before: seq<Operation>, name: TableName, live: Table, desired: Table)
    returns (up: seq<Operation>)
    ensures up == before + TableOps(Adding, name, live, desired)
  {
    up := before;
    var known := ColumnsByName(desired.columns);
    var additions := Sort(ByOrdinal, Only(desired.columns, ColumnsByName(live.columns), false));
    for i := 0 to |additions|
      invariant up + ColumnsOps(Adding, name, known, additions[i..])
           == before + ColumnsOps(Adding, name, known, additions)
    {
      DropOne(additions, i);
      PushAssociates(up, ColumnOps(Adding, name, known, additions[i]),
                     ColumnsOps(Adding, name, known, additions[i + 1..]));
      up := up + [AddColumn(name, additions[i])];
    }
  }

  lemma PushColumn(up: seq<Operation>, phase: Phase, name: TableName, known: map<string, Column>, columns: seq<Column>,
                   i: nat, all: seq<Operation>)
    requires i < |columns| && forall c :: c in columns ==> c.name in known
    requires up + ColumnsOps(phase, name, known, columns[i..]) == all
    ensures up + ColumnOps(phase, name, known, columns[i]) + ColumnsOps(phase, name, known, columns[i + 1..]) == all
  {
    DropOne(columns, i);
    PushAssociates(up, ColumnOps(phase, name, known, columns[i]), ColumnsOps(phase, name, known, columns[i + 1..]));
  }

  lemma PushNothing(up: seq<Operation>)
    ensures up + [] == up
  {}

  method PushTypeChange(before: seq<Operation>, name: TableName, known: map<string, Column>, c: Column)
    returns (up: seq<Operation>)
    requires c.name in known
    ensures up == before + ColumnOps(Retyping, name, known, c)
  {
    PushNothing(before);
    up := before;
    if c.sqlType != known[c.name].sqlType {
      up := up + [AlterType(name, c.name, c.sqlType, known[c.name].sqlType)];
    }
  }

  method PushTypeChanges(before: seq<Operation>, name: TableName, live: Table, desired: Table)
    returns (up: seq<Operation>)
    ensures up == before + TableOps(Retyping, name, live, desired)
  {
    up := before;
    var known := ColumnsByName(desired.columns);
    var common := Sort(ByOrdinal, Only(live.columns, known, true));
    SameElements(common, Only(live.columns, known, true));
    ghost var all := before + ColumnsOps(Retyping, name, known, common);
    for i := 0 to |common|
      invariant up + ColumnsOps(Retyping, name, known, common[i..]) == all
    {
      PushColumn(up, Retyping, name, known, common, i, all);
      up := PushTypeChange(up, name, known, common[i]);
    }
    PushNothing(up);
  }

  method PushNullabilityChange(before: seq<Operation>, name: TableName, known: map<string, Column>, c: Column)
    returns (up: seq<Operation>)
    requires c.name in known
    ensures up == before + ColumnOps(Renulling, name, known, c)
  {
    PushNothing(before);
    up := before;
    if c.nullable != known[c.name].nullable {
      up := up + [if known[c.name].nullable then DropNotNull(name, c.name) else SetNotNull(name, c.name)];
    }
  }

  method PushNullabilityChanges(before: seq<Operation>, name: TableName, live: Table, desired: Table)
    returns (up: seq<Operation>)
    ensures up == before + TableOps(Renulling, name, live, desired)
  {
    up := before;
    var known := ColumnsByName(desired.columns);
    var common := Sort(ByOrdinal, Only(live.columns, known, true));
    SameElements(common, Only(live.columns, known, true));
    ghost var all := before + ColumnsOps(Renulling, name, known, common);
    for i := 0 to |common|
      invariant up + ColumnsOps(Renulling, name, known, common[i..]) == all
    {
      PushColumn(up, Renulling, name, known, common, i, all);
      up := PushNullabilityChange(up, name, known, common[i]);
    }
    PushNothing(up);
  }

  method PushRemovals(before: seq<Operation>, name: TableName, live: Table, desired: Table) returns (up: seq<Operation>)
    ensures up == before + TableOps(Removing, name, live, desired)
  {
    up := before;
    var known := ColumnsByName(desired.columns);
    var removals := Sort(ByOrdinalDescending, Only(live.columns, known, false));
    for i := 0 to |removals|
      invariant up + ColumnsOps(Removing, name, known, removals[i..])
           == before + ColumnsOps(Removing, name, known, removals)
    {
      DropOne(removals, i);
      PushAssociates(up, ColumnOps(Removing, name, known, removals[i]),
                     ColumnsOps(Removing, name, known, removals[i + 1..]));
      up := up + [DropColumn(name, removals[i])];
    }
  }

  /** One of the four loops over tables; a table on one side only is skipped. */
  method PushPhase(before: seq<Operation>, phase: Phase, names: seq<TableName>, live: Tables, desired: Tables)
    returns (up: seq<Operation>)
    ensures up == before + PhaseOps(phase, names, live, desired)
  {
    up := before;
    for i := 0 to |names|
      invariant up + PhaseOps(phase, names[i..], live, desired) == before + PhaseOps(phase, names, live, desired)
    {
      DropOne(names, i);
      var name := names[i];
      ghost var here :=
        if name in live && name in desired then TableOps(phase, name, live[name], desired[name]) else [];
      PushAssociates(up, here, PhaseOps(phase, names[i + 1..], live, desired));
      if name in live && name in desired {
        match phase {
          case Adding => up := PushAdditions(up, name, live[name], desired[name]);
          case Retyping => up := PushTypeChanges(up, name, live[name], desired[name]);
          case Renulling => up := PushNullabilityChanges(up, name, live[name], desired[name]);
          case Removing => up := PushRemovals(up, name, live[name], desired[name]);
        }
      }
    }
  }

  method PushDrops(before: seq<Operation>, order: seq<TableName>, live: Tables) returns (up: seq<Operation>)
    requires forall n :: n in order ==> n in live
    ensures up == before + DropOps(order, live)
  {
    up := before;
    for i := 0 to |order|
      invariant up == before + DropOps(order, live)[..i]
    {
      up := up + [DropTable(live[order[i]])];
    }
  }

  method PlanTables(live: Tables, foreignKeys: seq<ForeignKey>, desired: Tables)
    returns (r: Result<MigrationPlan, DiffError>)
    ensures r == Plan(live, foreignKeys, desired)
  {
    var keyError := RejectPrimaryKeyChanges(live, desired);
    if keyError.Some? {
      return Failure(keyError.value);
    }
    var dropped := live.Keys - desired.Keys;
    var retained := RejectRetainedReferences(dropped, foreignKeys);
    if retained.Some? {
      return Failure(retained.value);
    }
    var order := OrderDroppedTables(dropped, foreignKeys);
    if order.Failure? {
      return Failure(order.error);
    }
    OrderIsLive(live, desired, foreignKeys);
    var up := PushAll(order.value, live, desired);
    return Success(MigrationPlan(up, Inverses(up)));
  }

  method PushAll(order: seq<TableName>, live: Tables, desired: Tables) returns (up: seq<Operation>)
    requires forall n :: n in order ==> n in live
    ensures up == UpOps(order, live, desired)
  {
    up := PushCreates([], Names(desired), live, desired);
    ghost var created := CreateOps(Names(desired), live, desired);
    assert up == created;
    up := PushColumnPhases(up, live, desired);
    up := PushDrops(up, order, live);
  }

  method PushColumnPhases(before: seq<Operation>, live: Tables, desired: Tables) returns (up: seq<Operation>)
    ensures up == before + ColumnPhases(live, desired)
  {
    var lives, desireds := Names(live), Names(desired);
    up := PushPhase(before, Adding, desireds, live, desired);
    up := PushPhase(up, Retyping, lives, live, desired);
    up := PushPhase(up, Renulling, lives, live, desired);
    up := PushPhase(up, Removing, lives, live, desired);
    FourPushes(before, PhaseOps(Adding, desireds, live, desired), PhaseOps(Retyping, lives, live, desired),
               PhaseOps(Renulling, lives, live, desired), PhaseOps(Removing, lives, live, desired));
  }

  lemma FourPushes(up: seq<Operation>, a: seq<Operation>, b: seq<Operation>, c: seq<Operation>, d: seq<Operation>)
    ensures up + a + b + c + d == up + (a + b + c + d)
  {}
}
