/** The manual-review warnings of a plan.
  * Models `AffectedShape`, `unsupported_warnings` and the warnings that
  * `plan_tables_ref` of crates/mads-cli/src/database/diff.rs pushes beside its
  * operations; here they are collected from the operations afterwards.
  */
module PlanWarnings {
  import opened Wrappers
  import opened Orders
  import opened Schema
  import opened DropOrder
  import opened DiffPlan
  import opened DiffMeaning
  import opened DiffTheorems
  import opened DiffOrder
  import opened DiffContents
  import DiffPlanner

  datatype Warning = Warning(subject: string, message: string)

  datatype UnsupportedKind = DefaultKind | IndexKind | CheckKind | TriggerKind | ForeignKeyKind

  /** An object the planner does not synthesize; without columns it belongs to the whole table. */
  datatype UnsupportedObject =
    UnsupportedObject(kind: UnsupportedKind, table: TableName, name: string, columns: seq<string>)

  predicate WarningLe(a: Warning, b: Warning) {
    if a.subject == b.subject then StringLe(a.message, b.message) else StringLe(a.subject, b.subject)
  }

  lemma WarningLeIsTotalOrder()
    ensures TotalOrder(WarningLe)
  {
    StringLeIsTotalOrder();
    forall a, b, c | WarningLe(a, b) && WarningLe(b, c) ensures WarningLe(a, c) {
      if a.subject != b.subject && b.subject != c.subject {
        assert StringLe(a.subject, c.subject);
        assert a.subject == c.subject ==> a.subject == b.subject;
      }
    }
  }

  // ----- one warning -----

  const NON_NULL := "adding a non-null column requires a manual backfill or data-safety review"
  const CAST := "changing a column type may require a risky cast; review the generated SQL"
  const COLUMN_DROP := "dropping a column may discard data; down.sql restores shape, not data"
  const TABLE_DROP := "dropping a table may discard data; down.sql restores shape, not data"

  function TableSubject(t: TableName): string {
    t.schema + "." + t.table
  }

  function ColumnSubject(t: TableName, column: string): string {
    t.schema + "." + t.table + "." + column
  }

  function RiskOf(op: Operation): Option<Warning> {
    match op
    case AddColumn(t, c) => if c.nullable then None else Some(Warning(ColumnSubject(t, c.name), NON_NULL))
    case AlterType(t, c, _, _) => Some(Warning(ColumnSubject(t, c), CAST))
    case DropColumn(t, c) => Some(Warning(ColumnSubject(t, c.name), COLUMN_DROP))
    case DropTable(t) => Some(Warning(TableSubject(t.name), TABLE_DROP))
    case _ => None
  }

  function KindName(kind: UnsupportedKind): string {
    match kind
    case DefaultKind => "default"
    case IndexKind => "index"
    case CheckKind => "check constraint"
    case TriggerKind => "trigger"
    case ForeignKeyKind => "foreign key"
  }

  function ObjectWarning(o: UnsupportedObject): Warning {
    Warning(ColumnSubject(o.table, o.name),
            "unsupported " + KindName(o.kind) + " is affected and will not be synthesized; review it manually")
  }

  function KeyWarning(k: ForeignKey): Warning {
    Warning(ColumnSubject(k.child, k.name), KEY_MESSAGE)
  }

  const KEY_MESSAGE := "unsupported foreign key is affected and will not be synthesized; review it manually"

  // ----- what a plan affects -----

  predicate MarksTable(op: Operation, t: TableName) {
    op.DropTable? && op.dropped.name == t
  }

  predicate MarksColumn(op: Operation, t: TableName, column: string) {
    match op
    case AddColumn(table, c) => table == t && c.name == column
    case DropColumn(table, c) => table == t && c.name == column
    case AlterType(table, c, _, _) => table == t && c == column
    case SetNotNull(table, c) => table == t && c == column
    case DropNotNull(table, c) => table == t && c == column
    case _ => false
  }

  ghost predicate DropsTable(ops: seq<Operation>, t: TableName) {
    exists op :: op in ops && MarksTable(op, t)
  }

  ghost predicate ChangesColumn(ops: seq<Operation>, t: TableName, column: string) {
    exists op :: op in ops && MarksColumn(op, t, column)
  }

  ghost predicate ChangesTable(ops: seq<Operation>, t: TableName) {
    DropsTable(ops, t) || exists column :: ChangesColumn(ops, t, column)
  }

  /** The object's table is dropped, or one of its columns is changed, or any column if it names none. */
  ghost predicate Affects(ops: seq<Operation>, o: UnsupportedObject) {
    DropsTable(ops, o.table)
    || exists column :: ChangesColumn(ops, o.table, column) && (o.columns == [] || column in o.columns)
  }

  class AffectedShape {
    var tables: set<TableName>
    var columns: map<TableName, set<string>>

    constructor ()
      ensures tables == {} && columns == map[]
    {
      tables, columns := {}, map[];
    }

    /** The marks of some operations, and no others. */
    ghost predicate Reflects(ops: seq<Operation>)
      reads this
    {
      && (forall t :: t in tables <==> DropsTable(ops, t))
      && (forall t :: t in columns ==> columns[t] != {})
      && (forall t, c :: t in columns && c in columns[t] <==> ChangesColumn(ops, t, c))
    }

    method MarkTable(t: TableName)
      modifies `tables
      ensures tables == old(tables) + {t}
    {
      tables := tables + {t};
    }

    method MarkColumn(t: TableName, column: string)
      modifies `columns
      ensures columns == old(columns)[t := (if t in old(columns) then old(columns)[t] else {}) + {column}]
    {
      columns := columns[t := (if t in columns then columns[t] else {}) + {column}];
    }

    predicate Touches(o: UnsupportedObject)
      reads this
    {
      || o.table in tables
      || (o.columns == [] && o.table in columns)
      || (o.table in columns && exists c :: c in o.columns && c in columns[o.table])
    }

    predicate TouchesTableOrColumn(t: TableName)
      reads this
    {
      t in tables || t in columns
    }

    method Mark(op: Operation, ghost before: seq<Operation>)
      requires Reflects(before)
      modifies this
      ensures Reflects(before + [op])
    {
      match op {
        case DropTable(t) => MarkTable(t.name);
        case AddColumn(t, c) => MarkColumn(t, c.name);
        case DropColumn(t, c) => MarkColumn(t, c.name);
        case AlterType(t, c, _, _) => MarkColumn(t, c);
        case SetNotNull(t, c) => MarkColumn(t, c);
        case DropNotNull(t, c) => MarkColumn(t, c);
        case CreateTable(_) =>
      }
      OneMoreOperation(before, op);
    }
  }

  lemma OneMoreOperation(before: seq<Operation>, op: Operation)
    ensures forall t :: DropsTable(before + [op], t) <==> DropsTable(before, t) || MarksTable(op, t)
    ensures forall t, c :: ChangesColumn(before + [op], t, c) <==> ChangesColumn(before, t, c) || MarksColumn(op, t, c)
  {
    var all := before + [op];
    assert all[|before|] == op;
    forall t ensures DropsTable(all, t) <==> DropsTable(before, t) || MarksTable(op, t) {
      if DropsTable(before, t) {
        var x :| x in before && MarksTable(x, t);
        assert x in all;
      }
    }
    forall t, c ensures ChangesColumn(all, t, c) <==> ChangesColumn(before, t, c) || MarksColumn(op, t, c) {
      if ChangesColumn(before, t, c) {
        var x :| x in before && MarksColumn(x, t, c);
        assert x in all;
      }
    }
  }

  lemma TouchesExactly(shape: AffectedShape, ops: seq<Operation>, o: UnsupportedObject)
    requires shape.Reflects(ops)
    ensures shape.Touches(o) <==> Affects(ops, o)
  {
    if o.table in shape.columns {
      var c :| c in shape.columns[o.table];
      assert ChangesColumn(ops, o.table, c);
    }
  }

  lemma TableTouchedExactly(shape: AffectedShape, ops: seq<Operation>, t: TableName)
    requires shape.Reflects(ops)
    ensures shape.TouchesTableOrColumn(t) <==> ChangesTable(ops, t)
  {
    if t in shape.columns {
      var c :| c in shape.columns[t];
      assert ChangesColumn(ops, t, c);
    }
  }

  // ----- collecting -----

  ghost predicate Risks(ops: seq<Operation>, w: Warning) {
    exists op :: op in ops && RiskOf(op) == Some(w)
  }

  ghost predicate WarnsOfObject(ops: seq<Operation>, unsupported: seq<UnsupportedObject>, w: Warning) {
    exists o :: o in unsupported && Affects(ops, o) && w == ObjectWarning(o)
  }

  ghost predicate WarnsOfKey(ops: seq<Operation>, foreignKeys: seq<ForeignKey>, w: Warning) {
    exists k :: k in foreignKeys && ChangesTable(ops, k.parent) && w == KeyWarning(k)
  }

  /** What a plan warns of, in order and without repetition. */
  ghost predicate AreWarnings(warnings: seq<Warning>, ops: seq<Operation>, unsupported: seq<UnsupportedObject>,
                              foreignKeys: seq<ForeignKey>) {
    && Sorted(WarningLe, warnings) && Distinct(warnings)
    && forall w :: w in warnings <==>
         Risks(ops, w) || WarnsOfObject(ops, unsupported, w) || WarnsOfKey(ops, foreignKeys, w)
  }

  lemma OneMoreRisk(before: seq<Operation>, op: Operation, w: Warning)
    ensures Risks(before + [op], w) <==> Risks(before, w) || RiskOf(op) == Some(w)
  {
    assert (before + [op])[|before|] == op;
    if Risks(before, w) {
      var x :| x in before && RiskOf(x) == Some(w);
      assert x in before + [op];
    }
  }

  method WarnOfOperations(ops: seq<Operation>) returns (warnings: seq<Warning>, affected: AffectedShape)
    ensures fresh(affected) && affected.Reflects(ops)
    ensures forall w :: w in warnings <==> Risks(ops, w)
  {
    warnings := [];
    affected := new AffectedShape();
    for i := 0 to |ops|
      invariant fresh(affected) && affected.Reflects(ops[..i])
      invariant forall w :: w in warnings <==> Risks(ops[..i], w)
    {
      TakeMore(ops, i);
      forall w ensures Risks(ops[..i + 1], w) <==> Risks(ops[..i], w) || RiskOf(ops[i]) == Some(w) {
        OneMoreRisk(ops[..i], ops[i], w);
      }
      affected.Mark(ops[i], ops[..i]);
      var risk := RiskOf(ops[i]);
      if risk.Some? {
        warnings := warnings + [risk.value];
      }
    }
    assert ops[..|ops|] == ops;
  }

  method WarnOfObjects(ops: seq<Operation>, unsupported: seq<UnsupportedObject>, affected: AffectedShape)
    returns (warnings: seq<Warning>)
    requires affected.Reflects(ops)
    ensures forall w :: w in warnings <==> WarnsOfObject(ops, unsupported, w)
  {
    warnings := [];
    for i := 0 to |unsupported|
      invariant forall w :: w in warnings <==> WarnsOfObject(ops, unsupported[..i], w)
    {
      TakeMore(unsupported, i);
      OneMoreObject(ops, unsupported[..i], unsupported[i]);
      TouchesExactly(affected, ops, unsupported[i]);
      if affected.Touches(unsupported[i]) {
        warnings := warnings + [ObjectWarning(unsupported[i])];
      }
    }
    assert unsupported[..|unsupported|] == unsupported;
  }

  lemma OneMoreObject(ops: seq<Operation>, before: seq<UnsupportedObject>, o: UnsupportedObject)
    ensures forall w :: WarnsOfObject(ops, before + [o], w)
              <==> WarnsOfObject(ops, before, w) || (Affects(ops, o) && w == ObjectWarning(o))
  {
    assert (before + [o])[|before|] == o;
    forall x ensures x in before + [o] <==> x in before || x == o {}
  }

  ghost predicate AreKeyWarnings(warnings: seq<Warning>, ops: seq<Operation>, keys: seq<ForeignKey>) {
    forall w :: w in warnings <==> WarnsOfKey(ops, keys, w)
  }

  lemma OneMoreKey(warnings: seq<Warning>, ops: seq<Operation>, before: seq<ForeignKey>, k: ForeignKey)
    requires AreKeyWarnings(warnings, ops, before)
    ensures AreKeyWarnings(if ChangesTable(ops, k.parent) then warnings + [KeyWarning(k)] else warnings,
                           ops, before + [k])
  {
    assert (before + [k])[|before|] == k;
    forall w
      ensures WarnsOfKey(ops, before + [k], w)
         <==> WarnsOfKey(ops, before, w) || (ChangesTable(ops, k.parent) && w == KeyWarning(k))
    {
      forall x ensures x in before + [k] <==> x in before || x == k {}
    }
  }

  method WarnOfKeys(ops: seq<Operation>, foreignKeys: seq<ForeignKey>, affected: AffectedShape)
    returns (warnings: seq<Warning>)
    requires affected.Reflects(ops)
    ensures forall w :: w in warnings <==> WarnsOfKey(ops, foreignKeys, w)
  {
    warnings := [];
    for i := 0 to |foreignKeys|
      invariant AreKeyWarnings(warnings, ops, foreignKeys[..i])
    {
      TakeMore(foreignKeys, i);
      OneMoreKey(warnings, ops, foreignKeys[..i], foreignKeys[i]);
      TableTouchedExactly(affected, ops, foreignKeys[i].parent);
      if affected.TouchesTableOrColumn(foreignKeys[i].parent) {
        warnings := warnings + [KeyWarning(foreignKeys[i])];
      }
    }
    assert foreignKeys[..|foreignKeys|] == foreignKeys;
  }

  /** Warnings are shown by subject, those of one subject by message, and none twice. */
  lemma WarningsAscend(warnings: seq<Warning>, ops: seq<Operation>, unsupported: seq<UnsupportedObject>,
                       foreignKeys: seq<ForeignKey>, i: nat, j: nat)
    requires AreWarnings(warnings, ops, unsupported, foreignKeys) && i < j < |warnings|
    ensures StringLe(warnings[i].subject, warnings[j].subject) && warnings[i] != warnings[j]
    ensures warnings[i].subject == warnings[j].subject ==> StringLe(warnings[i].message, warnings[j].message)
  {
    assert WarningLe(warnings[i], warnings[j]);
    StringLeReflexive(warnings[i].subject);
  }

  /** The plan with its warnings. The source sorts the objects before it warns of
    * them, which the final sort makes immaterial.
    */
  method PlanDiff(live: Tables, unsupported: seq<UnsupportedObject>, foreignKeys: seq<ForeignKey>, desired: Tables)
    returns (r: Result<MigrationPlan, DiffError>, warnings: seq<Warning>)
    ensures r == Plan(live, foreignKeys, desired)
    ensures r.Success? ==> AreWarnings(warnings, r.value.up, unsupported, foreignKeys)
  {
    warnings := [];
    r := DiffPlanner.PlanTables(live, foreignKeys, desired);
    if r.Success? {
      var up := r.value.up;
      var risks, affected := WarnOfOperations(up);
      var objects := WarnOfObjects(up, unsupported, affected);
      var keys := WarnOfKeys(up, foreignKeys, affected);
      WarningLeIsTotalOrder();
      SortDedupCorrect(WarningLe, risks + objects + keys);
      warnings := SortDedup(WarningLe, risks + objects + keys);
    }
  }

  // ----- what the schemas say about it -----

  ghost predicate IsOfTable(t: TableName, w: Warning) {
    w.subject == t.schema + "." + t.table
  }

  ghost predicate IsOfColumn(t: TableName, column: string, w: Warning) {
    w.subject == t.schema + "." + t.table + "." + column
  }

  ghost predicate IsBackfillAdvice(w: Warning) {
    w.message == "adding a non-null column requires a manual backfill or data-safety review"
  }

  ghost predicate IsCastAdvice(w: Warning) {
    w.message == "changing a column type may require a risky cast; review the generated SQL"
  }

  ghost predicate IsColumnDropAdvice(w: Warning) {
    w.message == "dropping a column may discard data; down.sql restores shape, not data"
  }

  ghost predicate IsTableDropAdvice(w: Warning) {
    w.message == "dropping a table may discard data; down.sql restores shape, not data"
  }

  /** Adding sees new columns, removing lost ones, and the other phases common ones. */
  ghost predicate LooksAt(phase: Phase, live: Table, desired: Table, c: Column) {
    match phase
    case Adding => c in desired.columns && c.name !in ColumnsByName(live.columns)
    case Removing => c in live.columns && c.name !in ColumnsByName(desired.columns)
    case _ => c in live.columns && c.name in ColumnsByName(desired.columns)
  }

  /** The risk a phase takes with a column it sees. */
  ghost predicate ChangeRisk(phase: Phase, known: map<string, Column>, t: TableName, c: Column, w: Warning) {
    match phase
    case Adding => !c.nullable && IsOfColumn(t, c.name, w) && IsBackfillAdvice(w)
    case Retyping =>
      c.name in known && c.sqlType != known[c.name].sqlType && IsOfColumn(t, c.name, w) && IsCastAdvice(w)
    case Renulling => false
    case Removing => IsOfColumn(t, c.name, w) && IsColumnDropAdvice(w)
  }

  ghost predicate ColumnRisk(phase: Phase, live: Table, desired: Table, t: TableName, c: Column, w: Warning) {
    LooksAt(phase, live, desired, c) && ChangeRisk(phase, ColumnsByName(desired.columns), t, c, w)
  }

  ghost predicate TableRisk(phase: Phase, live: Table, desired: Table, t: TableName, w: Warning) {
    exists c :: ColumnRisk(phase, live, desired, t, c, w)
  }

  ghost predicate RetainedRisk(phase: Phase, live: Tables, desired: Tables, w: Warning) {
    exists t :: t in live && t in desired && TableRisk(phase, live[t], desired[t], t, w)
  }

  /** A live table or column is lost or retyped, or a retained table gains a non-null column. */
  ghost predicate Risky(live: Tables, desired: Tables, w: Warning) {
    || (exists t :: IsDropped(live, desired, t) && IsOfTable(t, w) && IsTableDropAdvice(w))
    || RetainedRisk(Adding, live, desired, w)
    || RetainedRisk(Retyping, live, desired, w)
    || RetainedRisk(Removing, live, desired, w)
  }

  lemma RisksConcat(a: seq<Operation>, b: seq<Operation>, w: Warning)
    ensures Risks(a + b, w) <==> Risks(a, w) || Risks(b, w)
  {
    forall op ensures op in a + b <==> op in a || op in b {}
  }

  ghost predicate ColumnsRisk(phase: Phase, name: TableName, known: map<string, Column>, columns: seq<Column>,
                              w: Warning)
    requires phase.Retyping? || phase.Renulling? ==> forall c :: c in columns ==> c.name in known
  {
    exists c :: c in columns && Risks(ColumnOps(phase, name, known, c), w)
  }

  lemma {:induction false} ColumnsOpsRisks(phase: Phase, name: TableName, known: map<string, Column>,
                                           columns: seq<Column>,
                                           w: Warning)
    requires phase.Retyping? || phase.Renulling? ==> forall c :: c in columns ==> c.name in known
    ensures Risks(ColumnsOps(phase, name, known, columns), w) <==> ColumnsRisk(phase, name, known, columns, w)
  {
    if columns != [] {
      ColumnsOpsRisks(phase, name, known, columns[1..], w);
      RisksConcat(ColumnOps(phase, name, known, columns[0]), ColumnsOps(phase, name, known, columns[1..]), w);
      assert forall c :: c in columns <==> c == columns[0] || c in columns[1..];
    }
  }

  lemma OneRisk(op: Operation, w: Warning)
    ensures Risks([op], w) <==> RiskOf(op) == Some(w)
  {
    assert op in [op];
  }

  lemma LooksAtExactly(phase: Phase, live: Table, desired: Table, c: Column)
    ensures c in PhaseColumns(phase, live, desired) <==> LooksAt(phase, live, desired, c)
  {
    PhaseColumnsMembers(phase, live, desired);
  }

  lemma ChangeRisks(phase: Phase, name: TableName, known: map<string, Column>, c: Column, w: Warning)
    requires phase.Retyping? || phase.Renulling? ==> c.name in known
    ensures Risks(ColumnOps(phase, name, known, c), w) <==> ChangeRisk(phase, known, name, c, w)
  {
    var ops := ColumnOps(phase, name, known, c);
    if ops != [] {
      assert ops == [ops[0]];
      OneRisk(ops[0], w);
    }
  }

  lemma TableOpsRisk(phase: Phase, name: TableName, live: Table, desired: Table, w: Warning)
    ensures Risks(TableOps(phase, name, live, desired), w) <==> TableRisk(phase, live, desired, name, w)
  {
    var columns, known := PhaseColumns(phase, live, desired), ColumnsByName(desired.columns);
    PhaseColumnsMembers(phase, live, desired);
    ColumnsOpsRisks(phase, name, known, columns, w);
    if ColumnsRisk(phase, name, known, columns, w) {
      var c :| c in columns && Risks(ColumnOps(phase, name, known, c), w);
      LooksAtExactly(phase, live, desired, c);
      ChangeRisks(phase, name, known, c, w);
      assert ColumnRisk(phase, live, desired, name, c, w);
    }
    if TableRisk(phase, live, desired, name, w) {
      var c :| ColumnRisk(phase, live, desired, name, c, w);
      LooksAtExactly(phase, live, desired, c);
      ChangeRisks(phase, name, known, c, w);
    }
  }

  ghost predicate NamesRisk(phase: Phase, names: seq<TableName>, live: Tables, desired: Tables, w: Warning) {
    exists t :: t in names && t in live && t in desired && TableRisk(phase, live[t], desired[t], t, w)
  }

  lemma {:induction false} PhaseOpsRisk(phase: Phase, names: seq<TableName>, live: Tables, desired: Tables, w: Warning)
    ensures Risks(PhaseOps(phase, names, live, desired), w) <==> NamesRisk(phase, names, live, desired, w)
  {
    if names != [] {
      PhaseOpsRisk(phase, names[1..], live, desired, w);
      PhaseOpsCons(phase, names, live, desired);
      RisksConcat(TableOpsIfRetained(phase, names[0], live, desired), PhaseOps(phase, names[1..], live, desired), w);
      if names[0] in live && names[0] in desired {
        TableOpsRisk(phase, names[0], live[names[0]], desired[names[0]], w);
      }
      assert forall t :: t in names <==> t == names[0] || t in names[1..];
    }
  }

  lemma NamesCover(phase: Phase, names: seq<TableName>, live: Tables, desired: Tables, w: Warning)
    requires forall t :: t in live && t in desired ==> t in names
    ensures NamesRisk(phase, names, live, desired, w) <==> RetainedRisk(phase, live, desired, w)
  {}

  lemma RisksOfFour(a: seq<Operation>, b: seq<Operation>, c: seq<Operation>, d: seq<Operation>, w: Warning)
    ensures Risks(a + b + c + d, w) <==> Risks(a, w) || Risks(b, w) || Risks(c, w) || Risks(d, w)
  {
    RisksConcat(a, b, w);
    RisksConcat(a + b, c, w);
    RisksConcat(a + b + c, d, w);
  }

  lemma ColumnPhasesRisk(live: Tables, desired: Tables, w: Warning)
    ensures Risks(ColumnPhases(live, desired), w)
      <==> RetainedRisk(Adding, live, desired, w) || RetainedRisk(Retyping, live, desired, w)
           || RetainedRisk(Removing, live, desired, w)
  {
    var lives, desireds := Names(live), Names(desired);
    RisksOfFour(PhaseOps(Adding, desireds, live, desired), PhaseOps(Retyping, lives, live, desired),
                PhaseOps(Renulling, lives, live, desired), PhaseOps(Removing, lives, live, desired), w);
    PhaseRisk(Adding, desireds, live, desired, w);
    PhaseRisk(Retyping, lives, live, desired, w);
    PhaseRisk(Renulling, lives, live, desired, w);
    PhaseRisk(Removing, lives, live, desired, w);
    RenullingRisksNothing(live, desired, w);
  }

  lemma RenullingRisksNothing(live: Tables, desired: Tables, w: Warning)
    ensures !RetainedRisk(Renulling, live, desired, w)
  {}

  lemma PhaseRisk(phase: Phase, names: seq<TableName>, live: Tables, desired: Tables, w: Warning)
    requires forall t :: t in live && t in desired ==> t in names
    ensures Risks(PhaseOps(phase, names, live, desired), w) <==> RetainedRisk(phase, live, desired, w)
  {
    PhaseOpsRisk(phase, names, live, desired, w);
    NamesCover(phase, names, live, desired, w);
  }

  lemma CreationsRiskNothing(live: Tables, desired: Tables, w: Warning)
    ensures !Risks(CreateOps(Names(desired), live, desired), w)
  {
    CreateOpsCreate(Names(desired), live, desired);
  }

  lemma DropsRisk(order: seq<TableName>, live: Tables, desired: Tables, w: Warning)
    requires ValidTables(live) && forall t :: t in order <==> t in DroppedTables(live, desired)
    ensures Risks(DropOps(order, live), w)
      <==> exists t :: IsDropped(live, desired, t) && IsOfTable(t, w) && IsTableDropAdvice(w)
  {
    var ops := DropOps(order, live);
    if Risks(ops, w) {
      var op :| op in ops && RiskOf(op) == Some(w);
      var i :| 0 <= i < |ops| && ops[i] == op;
      assert order[i] in order && ValidTable(order[i], live[order[i]]);
      assert IsDropped(live, desired, order[i]) && IsOfTable(order[i], w);
    }
    if t :| IsDropped(live, desired, t) && IsOfTable(t, w) && IsTableDropAdvice(w) {
      assert t in order && ValidTable(t, live[t]);
      var i :| 0 <= i < |order| && order[i] == t;
      assert ops[i] in ops;
    }
  }

  /** The operations of a plan warn exactly of what the schemas lose or risk: a
    * plan without warnings drops no table, drops or retypes no column, and adds
    * no non-null column to a table that may hold rows.
    */
  lemma WarnsExactly(live: Tables, foreignKeys: seq<ForeignKey>, desired: Tables, plan: MigrationPlan, w: Warning)
    requires ValidTables(live)
    requires Plan(live, foreignKeys, desired) == Success(plan)
    ensures Risks(plan.up, w) <==> Risky(live, desired, w)
  {
    var order := PlanParts(live, foreignKeys, desired, plan);
    var created, columns := CreateOps(Names(desired), live, desired), ColumnPhases(live, desired);
    RisksConcat(created, columns, w);
    RisksConcat(created + columns, DropOps(order, live), w);
    CreationsRiskNothing(live, desired, w);
    ColumnPhasesRisk(live, desired, w);
    DropsRisk(order, live, desired, w);
  }

  // ----- what the schemas say about the objects left alone -----

  /** The column is gained or lost, or what is declared for its name is another type or nullability. */
  ghost predicate Differs(live: Tables, desired: Tables, t: TableName, column: string) {
    && IsRetained(live, desired, t)
    && (|| IsNamedIn(live[t], column) != IsNamedIn(desired[t], column)
        || exists c, w :: Stays(live, desired, t, column, c, w)
                          && (c.sqlType != w.sqlType || c.nullable != w.nullable))
  }

  lemma MarkedDiffers(live: Tables, desired: Tables, op: Operation, t: TableName, column: string)
    requires IsCalledFor(live, desired, op) && MarksColumn(op, t, column)
    ensures Differs(live, desired, t, column)
  {
    if op.AddColumn? || op.DropColumn? {
      assert IsNamedIn(live[t], column) != IsNamedIn(desired[t], column);
    }
  }

  lemma GainIsMarked(live: Tables, desired: Tables, t: TableName, column: string) returns (op: Operation)
    requires IsRetained(live, desired, t) && IsNamedIn(live[t], column) != IsNamedIn(desired[t], column)
    ensures IsCalledFor(live, desired, op) && MarksColumn(op, t, column)
  {
    if IsNamedIn(desired[t], column) {
      var c :| c in desired[t].columns && c.name == column;
      op := AddColumn(t, c);
    } else {
      var c :| c in live[t].columns && c.name == column;
      op := DropColumn(t, c);
    }
  }

  lemma ChangeIsMarked(live: Tables, desired: Tables, t: TableName, column: string, c: Column, w: Column)
    returns (op: Operation)
    requires Stays(live, desired, t, column, c, w) && (c.sqlType != w.sqlType || c.nullable != w.nullable)
    ensures IsCalledFor(live, desired, op) && MarksColumn(op, t, column)
  {
    if c.sqlType != w.sqlType {
      op := AlterType(t, column, c.sqlType, w.sqlType);
      assert IsRetyped(live, desired, t, column, c.sqlType, w.sqlType);
    } else {
      op := if w.nullable then DropNotNull(t, column) else SetNotNull(t, column);
      assert IsRenulled(live, desired, t, column, w.nullable);
    }
  }

  lemma ChangesExactly(live: Tables, foreignKeys: seq<ForeignKey>, desired: Tables, plan: MigrationPlan, t: TableName,
                       column: string)
    requires Plan(live, foreignKeys, desired) == Success(plan)
    ensures ChangesColumn(plan.up, t, column) <==> Differs(live, desired, t, column)
  {
    if ChangesColumn(plan.up, t, column) {
      var op :| op in plan.up && MarksColumn(op, t, column);
      PlanHoldsExactly(live, foreignKeys, desired, plan, op);
      MarkedDiffers(live, desired, op, t, column);
    }
    if Differs(live, desired, t, column) {
      var op;
      if IsNamedIn(live[t], column) != IsNamedIn(desired[t], column) {
        op := GainIsMarked(live, desired, t, column);
      } else {
        var c, w :| Stays(live, desired, t, column, c, w) && (c.sqlType != w.sqlType || c.nullable != w.nullable);
        op := ChangeIsMarked(live, desired, t, column, c, w);
      }
      PlanHoldsExactly(live, foreignKeys, desired, plan, op);
    }
  }

  lemma DroppedIsNamed(live: Tables, desired: Tables, op: Operation, t: TableName)
    requires ValidTables(live)
    ensures IsCalledFor(live, desired, op) && MarksTable(op, t) ==> IsDropped(live, desired, t)
  {
    if IsCalledFor(live, desired, op) && MarksTable(op, t) {
      var n :| IsDropped(live, desired, n) && op.dropped == live[n];
      assert ValidTable(n, live[n]);
    }
  }

  lemma NamedIsMarked(live: Tables, desired: Tables, t: TableName)
    requires ValidTables(live) && IsDropped(live, desired, t)
    ensures IsCalledFor(live, desired, DropTable(live[t])) && MarksTable(DropTable(live[t]), t)
  {
    assert ValidTable(t, live[t]);
  }

  lemma DropsExactly(live: Tables, foreignKeys: seq<ForeignKey>, desired: Tables, plan: MigrationPlan, t: TableName)
    requires ValidTables(live) && Plan(live, foreignKeys, desired) == Success(plan)
    ensures DropsTable(plan.up, t) <==> IsDropped(live, desired, t)
  {
    if DropsTable(plan.up, t) {
      var op :| op in plan.up && MarksTable(op, t);
      PlanHoldsExactly(live, foreignKeys, desired, plan, op);
      DroppedIsNamed(live, desired, op, t);
    }
    if IsDropped(live, desired, t) {
      PlanHoldsExactly(live, foreignKeys, desired, plan, DropTable(live[t]));
      NamedIsMarked(live, desired, t);
    }
  }

  /** The object's table is lost, or a column that it is about differs. */
  ghost predicate IsAffected(live: Tables, desired: Tables, o: UnsupportedObject) {
    || IsDropped(live, desired, o.table)
    || exists column :: Differs(live, desired, o.table, column) && (o.columns == [] || column in o.columns)
  }

  ghost predicate IsReshaped(live: Tables, desired: Tables, t: TableName) {
    IsDropped(live, desired, t) || exists column :: Differs(live, desired, t, column)
  }

  ghost predicate IsWordFor(word: string, kind: UnsupportedKind) {
    || (kind.DefaultKind? && word == "default")
    || (kind.IndexKind? && word == "index")
    || (kind.CheckKind? && word == "check constraint")
    || (kind.TriggerKind? && word == "trigger")
    || (kind.ForeignKeyKind? && word == "foreign key")
  }

  /** The warning names the object and the kind it is of. */
  ghost predicate TellsOf(w: Warning, o: UnsupportedObject) {
    && IsOfColumn(o.table, o.name, w)
    && exists word :: IsWordFor(word, o.kind)
         && w.message == "unsupported " + word + " is affected and will not be synthesized; review it manually"
  }

  ghost predicate TellsOfKey(w: Warning, k: ForeignKey) {
    IsOfColumn(k.child, k.name, w)
    && w.message == "unsupported foreign key is affected and will not be synthesized; review it manually"
  }

  lemma TellsExactly(w: Warning, o: UnsupportedObject)
    ensures w == ObjectWarning(o) <==> TellsOf(w, o)
  {
    assert IsWordFor(KindName(o.kind), o.kind);
  }

  lemma TouchedAlike(live: Tables, foreignKeys: seq<ForeignKey>, desired: Tables, plan: MigrationPlan, t: TableName)
    requires ValidTables(live) && Plan(live, foreignKeys, desired) == Success(plan)
    ensures DropsTable(plan.up, t) <==> IsDropped(live, desired, t)
    ensures forall column :: ChangesColumn(plan.up, t, column) <==> Differs(live, desired, t, column)
  {
    DropsExactly(live, foreignKeys, desired, plan, t);
    forall column ensures ChangesColumn(plan.up, t, column) <==> Differs(live, desired, t, column) {
      ChangesExactly(live, foreignKeys, desired, plan, t, column);
    }
  }

  lemma AffectsExactly(live: Tables, foreignKeys: seq<ForeignKey>, desired: Tables, plan: MigrationPlan,
                       o: UnsupportedObject)
    requires ValidTables(live) && Plan(live, foreignKeys, desired) == Success(plan)
    ensures Affects(plan.up, o) <==> IsAffected(live, desired, o)
  {
    TouchedAlike(live, foreignKeys, desired, plan, o.table);
  }

  lemma ReshapedExactly(live: Tables, foreignKeys: seq<ForeignKey>, desired: Tables, plan: MigrationPlan, t: TableName)
    requires ValidTables(live) && Plan(live, foreignKeys, desired) == Success(plan)
    ensures ChangesTable(plan.up, t) <==> IsReshaped(live, desired, t)
  {
    TouchedAlike(live, foreignKeys, desired, plan, t);
  }

  ghost predicate SomeObjectTold(live: Tables, desired: Tables, unsupported: seq<UnsupportedObject>, w: Warning) {
    exists o :: o in unsupported && IsAffected(live, desired, o) && TellsOf(w, o)
  }

  ghost predicate SomeKeyTold(live: Tables, desired: Tables, foreignKeys: seq<ForeignKey>, w: Warning) {
    exists k :: k in foreignKeys && IsReshaped(live, desired, k.parent) && TellsOfKey(w, k)
  }

  /** A plan warns exactly of the risks it takes, of the unsupported objects on a table
    * that is lost or on a column that differs, and of the foreign keys to a table that
    * is lost or has such a column.
    */
  lemma WarningsExactly(live: Tables, unsupported: seq<UnsupportedObject>, foreignKeys: seq<ForeignKey>,
                        desired: Tables, plan: MigrationPlan, warnings: seq<Warning>, w: Warning)
    requires ValidTables(live) && Plan(live, foreignKeys, desired) == Success(plan)
    requires AreWarnings(warnings, plan.up, unsupported, foreignKeys)
    ensures w in warnings
      <==> || Risky(live, desired, w)
           || SomeObjectTold(live, desired, unsupported, w)
           || SomeKeyTold(live, desired, foreignKeys, w)
  {
    WarnsExactly(live, foreignKeys, desired, plan, w);
    ObjectsTold(live, unsupported, foreignKeys, desired, plan, w);
    KeysTold(live, foreignKeys, desired, plan, w);
  }

  lemma ObjectsTold(live: Tables, unsupported: seq<UnsupportedObject>, foreignKeys: seq<ForeignKey>, desired: Tables,
                    plan: MigrationPlan, w: Warning)
    requires ValidTables(live) && Plan(live, foreignKeys, desired) == Success(plan)
    ensures WarnsOfObject(plan.up, unsupported, w) <==> SomeObjectTold(live, desired, unsupported, w)
  {
    if WarnsOfObject(plan.up, unsupported, w) {
      var o :| o in unsupported && Affects(plan.up, o) && w == ObjectWarning(o);
      AffectsExactly(live, foreignKeys, desired, plan, o);
      TellsExactly(w, o);
    }
    if SomeObjectTold(live, desired, unsupported, w) {
      var o :| o in unsupported && IsAffected(live, desired, o) && TellsOf(w, o);
      AffectsExactly(live, foreignKeys, desired, plan, o);
      TellsExactly(w, o);
    }
  }

  lemma KeysTold(live: Tables, foreignKeys: seq<ForeignKey>, desired: Tables, plan: MigrationPlan, w: Warning)
    requires ValidTables(live) && Plan(live, foreignKeys, desired) == Success(plan)
    ensures WarnsOfKey(plan.up, foreignKeys, w) <==> SomeKeyTold(live, desired, foreignKeys, w)
  {
    forall k: ForeignKey ensures ChangesTable(plan.up, k.parent) <==> IsReshaped(live, desired, k.parent) {
      ReshapedExactly(live, foreignKeys, desired, plan, k.parent);
    }
  }
}
