# Verified model of the MADS core algorithms

MADS is an application framework for Rust with a command-line tool. This project
models the parts of it that make decisions over many steps or many values, and
proves what they promise:

- **Schema differences.** `Schema` gives every migration operation a meaning on
  schemas. `DiffPlan` says which operations the planner emits, `DiffPlanner` and
  `DropOrder` hold its loops, and `DiffMeaning`, `DiffNames` and `DiffTheorems`
  prove when a plan exists, when its `up` applies, that it then reaches the desired
  schema, that `down` retraces it, and that no foreign key dangles on either way.
  `DiffContents` says which operations a plan holds, `DiffOrder` in which order those
  of one phase come, and what a refused plan is told.
  `PlanWarnings` collects the warnings and proves them exact, from the operations and
  from the schemas.

  The reader of declared tables does not refuse two columns of one name
  (crates/mads-cli/src/database/schema.rs:380-413), and neither does the planner;
  a database does. So a plan may have an `up` that cannot run:
  `DiffTheorems.RepeatedColumnIsRefused` gives one, and
  `DiffTheorems.UpAppliesExactly` says exactly which they are.
- **The development supervisor.** `DevState` is the state machine, `DevLoop` the
  event loop with its build slot and its process slot, `DevSafety` what holds in
  every run, whatever fails, and `DevAnswers` what is done about each event, told
  from the slots and the record of the run alone.
- **Routes.** `RoutePaths` is the path grammar, the prefix join, the canonical
  pattern and the sets of requests that patterns match; `RouteCatalog` validates a
  catalogue of controllers, `RouteTheorems` says exactly which are accepted and
  what a registrar is handed, `RouteRejections` that what a rejected catalogue is
  told is true, and `RouterPaths` whether the router paths of an accepted catalogue
  can stand side by side.

  Routes are told apart by method and matched requests
  (crates/mads-common/src/route.rs:786-800), so a catalogue may hand a router two
  paths for one set of requests, captured under different names.
  `RouterPaths.AcceptedNotInstallable` gives such a catalogue and
  `RouterPaths.InstallsExactly` says which they are.
- **Lifecycle.** `Lifecycle` holds the manager, its start with rollback and its
  shutdown, and the law of every run with arbitrary failures.
- **Consumer paths.** `ConsumerPath` is the breadth-first search that explains a
  failing provider.
- **SQL.** `SqlNames` prints and scans quoted names, `SqlTypes` prints types and
  parses catalogue types.
- **Publication.** `Publication` is the staged, synchronised, no-replace protocol
  that writes a migration, over a directory that a rival changes between any two
  calls; `PublishSafety` and `PublishRestores` say what it never does and what it
  undoes, and `Timestamps` why migration names sort.

  What a rival adds can be lost in two ways: an empty `migrations`
  directory that it found because we had made it (`PublishRestores.FailureRestoresAll`,
  `PublishRestores.EmptyParentIsLost`), and what it puts under our staging name after
  our rename, if our last synchronisation fails (`PublishRestores.GuardMeetsExactly`,
  `PublishRestores.RivalStagingIsLost`).
- **Configuration.** `TomlFiles` flattens TOML tables into sources, `ConfigMerge`
  says what the last source to speak means, `ConfigBuild` merges and interpolates
  step by step, and `ConfigMeaning` says what a build gives in terms of its inputs.

  Names are joined with dots, and an empty prefix is no prefix
  (crates/mads-core/src/config.rs:400-405). So a name with a dot or an empty name can
  hide a value of the same file
  (`TomlFiles.DottedNameHides`, `TomlFiles.EmptyNameHides`), and a scalar whose names
  are all empty is refused (`TomlFiles.NamelessScalarIsRefused`).
  `TomlFiles.LosesNothingExactly` and `TomlFiles.LoadsExactly` say which files these are.
- **Module trees.** `ModuleTree` draws an import graph that may have cycles, and
  proves that the drawing is determined.

`Orders`, `Locations`, `Graphs`, `Decimals` and `Wrappers` are shared vocabulary:
sorting and string order, source locations, cycles, numerals, optional values and
results.

Where the source updates variables in loops or fields in place, the model is a
method or a class whose contract equates its result with a specification function
or states it outright; the theorems are about those specifications. A `BTreeMap`
is a `map`; iterating over one visits the keys in sorted order wherever that order
can be observed, and in any order elsewhere.

What the model takes as input: whether each call to a hook, a process, a build or
the filesystem succeeds (a function from the number of the call), the events the
loop receives, what a rival creates, and what parsing a TOML file or a dotenv file
and reading the environment gives. All of these are arbitrary.

Checking the whole project: `dafny verify dfyconfig.toml`.

## Model

| member | source | states |
|---|---|---|
| `Schema.InverseUndoes` | crates/mads-cli/src/database/diff.rs:57-91 | on a valid schema, the inverse of any applicable operation is applicable afterwards and restores the schema |
| `Schema.InversesUndo` | crates/mads-cli/src/database/diff.rs:312 | the reversed list of inverses undoes a whole run |
| `Schema.InversesRetrace` | crates/mads-cli/src/database/diff.rs:312 | undoing the last operations gives exactly what the others had reached, at every point |
| `DropOrder.GreedyIsChildFirst` | crates/mads-cli/src/database/diff.rs:368-419 | the order lists exactly the dropped tables, once each, every child before its parents |
| `DropOrder.GreedyIsLeast` | crates/mads-cli/src/database/diff.rs:393-411 | no other child-first order of the dropped tables is lexicographically smaller |
| `DropOrder.GreedyFailsOnCycle` | crates/mads-cli/src/database/diff.rs:412-417 | where the sort fails there is a cycle of foreign keys, a self-reference included |
| `DropOrder.GreedyCorrect` | crates/mads-cli/src/database/diff.rs:368-419 | the sort succeeds if and only if the dropped tables have no cycle, and then yields the least child-first order |
| `DropOrder.CountReferences` | crates/mads-cli/src/database/diff.rs:372-391 | the two maps hold, per table, the number of distinct dropped children and the list of dropped parents |
| `DropOrder.ReleaseParents` | crates/mads-cli/src/database/diff.rs:399-409 | after a table is ordered the counters again count the references still standing, and the ready set is where they are zero |
| `DropOrder.SortChildFirst` | crates/mads-cli/src/database/diff.rs:393-418 | the counting loop computes the order that repeatedly takes the least table nobody remaining refers to |
| `DropOrder.OrderDroppedTables` | crates/mads-cli/src/database/diff.rs:368-419 | the whole function, parallel keys included, agrees with that order or reports the cycle |
| `DiffPlanner.RejectPrimaryKeyChanges` | crates/mads-cli/src/database/diff.rs:324-351 | the loop reports exactly the first key error in iteration order, a changed key before a lost column |
| `DiffPlanner.RejectRetainedReferences` | crates/mads-cli/src/database/diff.rs:353-366 | reports the first listed foreign key from a retained to a dropped table |
| `DiffPlanner.PushTypeChanges` | crates/mads-cli/src/database/diff.rs:198-230 | appends the type changes of one table, by live ordinal and name |
| `DiffPlanner.PushNullabilityChanges` | crates/mads-cli/src/database/diff.rs:232-267 | appends the nullability changes of one table in the same order |
| `DiffPlanner.PushColumnPhases` | crates/mads-cli/src/database/diff.rs:171-292 | the four loops over retained tables emit the four column phases one after the other |
| `DiffPlanner.PlanTables` | crates/mads-cli/src/database/diff.rs:145-314 | the planner as it runs returns the specified plan or the specified rejection |
| `DiffMeaning.ColumnPhasesAdvance` | crates/mads-cli/src/database/diff.rs:171-292 | if no retained table gains two columns of one name, every column operation applies where it runs, and the four phases take each retained table from its live shape to its desired shape through explicit intermediate shapes |
| `DiffMeaning.UpReachesDesired` | crates/mads-cli/src/database/diff.rs:145-314 | if the declared names are apart, running all of `up` from the live schema is applicable and gives the desired schema |
| `DiffTheorems.PlanExistsExactly` | crates/mads-cli/src/database/diff.rs:145-159 | a plan exists if and only if retained primary keys are kept, no retained table refers to a dropped one and the dropped ones have no cycle |
| `DiffTheorems.LeastTableIsReported` | crates/mads-cli/src/database/diff.rs:328-349 | the key rejection names the least table, in name order, whose key is wrong |
| `DiffTheorems.KeysKeptWhenEqual` | crates/mads-cli/src/database/diff.rs:338-348 | if the key columns of every desired table exist, as its reader guarantees, the key-column rejection can never fire once the keys are equal |
| `DiffTheorems.UpAppliesExactly` | crates/mads-cli/src/database/diff.rs:145-314 | the `up` of a plan applies to the live schema, and then reaches the desired one, if and only if no new table repeats the name of a column or of a key column and no retained table gains two columns of one name |
| `DiffTheorems.RepeatedColumnIsRefused` | crates/mads-cli/src/database/schema.rs:380-413 | a declared table with one column name twice passes the reader's checks and is planned, and the `up` of that plan is refused |
| `DiffTheorems.PlanIsReversible` | crates/mads-cli/src/database/diff.rs:145-314 | under that condition `up` takes live to desired and `down` takes desired back to live, each step applicable and passing through the same schemas in reverse |
| `DiffTheorems.EmptyPlanExactly` | crates/mads-cli/src/database/diff.rs:127-129 | a plan is empty if and only if the two schemas have the same shape, whatever names a declaration repeats |
| `DiffTheorems.NothingEverDangles` | crates/mads-cli/src/database/diff.rs:353-419 | at every point that `up` reaches, whether or not it can go on, no present table has a listed foreign key to a live table that is gone |
| `DiffTheorems.NothingDanglesGoingDown` | crates/mads-cli/src/database/diff.rs:312 | nor at any point that `down` reaches from the desired schema |
| `DiffTheorems.PlanIsPhased` | crates/mads-cli/src/database/diff.rs:145-314 | operations come in six phases: creations, additions, type changes, nullability changes, removals, drops |
| `DiffContents.PlanHoldsExactly` | crates/mads-cli/src/database/diff.rs:161-304 | an operation is in `up` if and only if one difference between the two schemas calls for it, with the very column or table that differs; nothing is asked of either schema |
| `DiffOrder.PlanIsInTurn` | crates/mads-cli/src/database/diff.rs:164-292 | in any plan the operations of one phase follow the names of their tables and, within a table, the positions and then the names of their columns, removals in reverse; only the drops of tables have an order of their own |
| `DiffOrder.PlanIsRefusedTruly` | crates/mads-cli/src/database/diff.rs:324-417 | a plan is refused for a wrong key before a reference and for a reference before a cycle, and the error names the first table by name, the first missing key column or the first listed foreign key concerned |
| `PlanWarnings.WarningsExactly` | crates/mads-cli/src/database/diff.rs:145-514 | a plan warns of the risks it takes, of an unsupported object if and only if its table is lost or a column it is about is gained, lost, retyped or renulled, and of a foreign key if and only if its parent table is lost or has such a column; each warning names the kind and the object |
| `PlanWarnings.AffectedShape.Mark` | crates/mads-cli/src/database/diff.rs:421-437 | the marks are those of the operations so far and no others |
| `PlanWarnings.TouchesExactly` | crates/mads-cli/src/database/diff.rs:439-446 | an object is touched if and only if its table is dropped or a column it names, or any column if it names none, is changed |
| `PlanWarnings.PlanDiff` | crates/mads-cli/src/database/diff.rs:145-314 | the warnings are strictly ascending and are exactly those of risky operations, of touched unsupported objects and of foreign keys whose parent is touched |
| `PlanWarnings.WarningsAscend` | crates/mads-cli/src/database/diff.rs:305-308 | warnings come by subject and then by message, and none twice |
| `PlanWarnings.WarnsExactly` | crates/mads-cli/src/database/diff.rs:171-304 | for any declared tables, the operations warn if and only if a live table or column is lost, a retained column is retyped, or a retained table gains a non-null column; making a column non-null never warns |
| `DevState.Supervisor.Transition` | crates/mads-cli/src/dev_state.rs:42-140 | the handlers update the five fields and return the actions that the reaction function prescribes |
| `DevState.ChangesCoalesce` | crates/mads-cli/src/watch.rs:21-23 | changes that arrive during a build have the same effect, one by one, as their single merged change |
| `DevState.QueuedChangesAreServed` | crates/mads-cli/src/dev_state.rs:69-126 | the end of a build starts another if and only if a queued change needs a rebuild; a restart alone is served by the new binary, and dropped if the build failed |
| `DevState.NoBuildOverBuild` | crates/mads-cli/src/dev_state.rs:60-67 | no event asks for a build while one is in flight |
| `DevState.ShutdownIsFinal` | crates/mads-cli/src/dev_state.rs:127-140 | a shutdown stops what runs, exits, keeps nothing but the last build, and makes every later event do nothing |
| `DevLoop.Driver.StartApplication` | crates/mads-cli/src/dev.rs:303-315 | refuses a second application and otherwise fills the slot if the spawn succeeds |
| `DevLoop.Driver.StopApplication` | crates/mads-cli/src/dev.rs:317-324 | empties the slot before stopping, even when stopping fails |
| `DevLoop.Driver.ApplicationHasExited` | crates/mads-cli/src/dev.rs:326-337 | empties the slot exactly when there was a process and it has exited |
| `DevLoop.CancelActiveBuild` | crates/mads-cli/src/dev.rs:238-243 | takes the build out of its slot before cancelling it, even when cancelling fails |
| `DevLoop.ExecuteActions` | crates/mads-cli/src/dev.rs:245-280 | executes the actions in order up to the first failure or exit |
| `DevLoop.HandleEvent` | crates/mads-cli/src/dev.rs:175-219 | each branch of the selection, with the order of cancelling, emptying the slot and reacting |
| `DevLoop.RunDevWithEventLoop` | crates/mads-cli/src/dev.rs:140-227 | the loop and its final clean-up over any sequence of events agree with the step-by-step run |
| `DevLoop.ReturnIsFinal` | crates/mads-cli/src/dev.rs:155-226 | once the loop has returned, further events change nothing |
| `DevSafety.WaitingMeans` | crates/mads-cli/src/dev_state.rs:69-83 | no request is waiting if and only if each request in the trace is followed by the start of a build |
| `DevSafety.EveryRunIsSafe` | crates/mads-cli/src/dev.rs:140-227 | in every run flags and slots agree, the process is the last successful build, no second application or build over a build is ever attempted, both slots are empty on return, and an exit happens exactly on success, once and last |
| `DevSafety.NoRequestIsLost` | crates/mads-cli/src/dev_state.rs:69-126 | with no build in flight, every rebuild request so far was followed by a build |
| `DevSafety.ShutdownEndsTheLoop` | crates/mads-cli/src/dev.rs:176-181 | a shutdown signal ends the loop at once, with success if and only if cancelling the build and stopping the process both succeed |
| `DevAnswers.FirstBuildBegins` | crates/mads-cli/src/dev.rs:140-155 | the loop begins with a build and nothing else |
| `DevAnswers.RoundIsAnswered` | crates/mads-cli/src/dev.rs:175-219 | in any state that the invariant allows, a round adds exactly the answer to its event, in order, to the record and leaves the slots as that answer says; it fails exactly if one of the answer's calls, the watcher or the poll does, at the first such call |
| `DevAnswers.EveryEventIsAnswered` | crates/mads-cli/src/dev.rs:140-227 | so in every run: rebuild changes begin a build or wait for the one in flight, restart changes replace the process by the last successful build, a successful build replaces it by the new one, a failed one leaves it, a build begins again exactly if one was requested meanwhile, and a shutdown cancels, stops and exits |
| `DevAnswers.RestartReplaces` | crates/mads-cli/src/dev_state.rs:80-96 | with no build in flight, a restart change stops what runs and starts the last successful build |
| `DevAnswers.FailureCleansUp` | crates/mads-cli/src/dev.rs:222-225 | after a failure the build in flight is cancelled and then the application stopped |
| `RoutePaths.ValidatePath` | crates/mads-common/src/route.rs:940-1049 | the loop with its set of parameters reports the specified error or none |
| `RoutePaths.CheckPathExactly` | crates/mads-common/src/route.rs:940-1049 | the checks accept exactly the paths of the grammar: rooted, clean characters, no empty, dot or wildcard segments, distinct parameters, no parameters in a prefix |
| `RoutePaths.PathErrorHolds` | crates/mads-common/src/route.rs:940-1049 | each error says something true of the path, a repeated parameter included, which names it |
| `RoutePaths.JoinIsValid` | crates/mads-common/src/route.rs:930-938 | a valid prefix joined with a valid path is a valid path whose segments are the two lists in sequence |
| `RoutePaths.MacroAgreesWithRuntime` | crates/mads-common-macros/src/routes.rs:545-649 | the macro accepts a prefix and a path if and only if the runtime accepts both and the prefix is not written as the empty string; the full path is then the runtime's join, which the runtime accepts |
| `RoutePaths.PatternsDecideMatches` | crates/mads-common/src/route.rs:1082-1093 | two valid paths have the same canonical pattern if and only if they match the same concrete request paths |
| `RoutePaths.AxumKeepsMatches` | crates/mads-common/src/route.rs:1095-1105 | the translated path matches the same requests under the router's own notation |
| `RouteCatalog.ValidateRoute` | crates/mads-common/src/route.rs:911-928 | checks prefix, path, full path, their join and the location, in that order |
| `RouteCatalog.ValidateControllerIdentity` | crates/mads-common/src/route.rs:844-873 | reports an empty name, else the first earlier controller with the same identifier or name |
| `RouteCatalog.ValidateContracts` | crates/mads-common/src/route.rs:875-909 | reports the first contract that is unnamed, empty or a duplicate |
| `RouteCatalog.ValidateWithSelection` | crates/mads-common/src/route.rs:758-816 | the loops over controllers, contracts and routes, with the map of routes seen, agree with the specification |
| `RouteTheorems.CheckRouteExactly` | crates/mads-common/src/route.rs:911-928 | a route passes if and only if prefix and path are valid, the full path is their join and it has a location |
| `RouteTheorems.DistinctKeysExactly` | crates/mads-common/src/route.rs:786-800 | keys are distinct if and only if no two routes with one method match the same set of requests |
| `RouteTheorems.AcceptedExactly` | crates/mads-common/src/route.rs:758-816 | a catalogue is accepted if and only if its controllers are named, described and distinct, their contracts are named, distinct and have routes, every selected route is valid and no two clash on method and matched requests; the registrars then get exactly their routes |
| `RouteTheorems.AcceptedPairs` | crates/mads-common/src/route.rs:777-812 | each controller's own registrar is handed that controller's routes in order, with method, handler, selection and the path of the selected ones |
| `RouteTheorems.ControllersInOrder` | crates/mads-common/src/route.rs:1107-1120 | controllers are taken by type name, then by namespace with none first, then by the place of their first route |
| `RouteRejections.RejectionIsTrue` | crates/mads-common/src/route.rs:758-909 | a rejected catalogue is told something true of its controllers or selected routes; what the error calls previous was validated earlier, and two conflicting routes have one method and match the same requests |
| `RouteTheorems.ContractsExactly` | crates/mads-common/src/route.rs:875-909 | the contracts of a controller pass if and only if there is one, each is named and has routes, and no two have one name |
| `RouteTheorems.OrderDoesNotMatter` | crates/mads-common/src/route.rs:762-763 | neither acceptance nor the validated catalogue depends on the order of the descriptors |
| `RouteTheorems.ValidatedRouteIter.Next` | crates/mads-common/src/route.rs:493-529 | advances by one route, and gives its path exactly when method and handler match and it is selected |
| `RouteTheorems.ValidatedRouteIter.Finish` | crates/mads-common/src/route.rs:541-554 | fails exactly if a route was left over |
| `RouteTheorems.RegistersExactly` | crates/mads-common/src/route.rs:493-554 | a registrar's requests all succeed and finish if and only if they name the routes handed over, in order |
| `RouteTheorems.RegistrarGetsItsRoutes` | crates/mads-common/src/route.rs:758-816 | asking for an accepted controller's routes in declaration order always succeeds, with a path for exactly the selected ones |
| `RouterPaths.InstallsExactly` | crates/mads-common/src/route.rs:786-804 | the router paths that an accepted catalogue hands over are one for each set of requests if and only if no two selected routes match the same requests under different captured names, whatever their methods |
| `RouterPaths.AcceptedNotInstallable` | crates/mads-common/src/route.rs:786-804 | GET and POST at one place, captured under two names, are accepted and handed over as two router paths for one set of requests |
| `RouterPaths.CapturesDecide` | crates/mads-common/src/route.rs:1082-1093 | paths that match the same requests and capture under the same names are equal |
| `RouterPaths.ToAxumIsInjective` | crates/mads-common/src/route.rs:1095-1105 | no two valid paths become one in the router's notation |
| `Lifecycle.StartsBeforeIsTotalOrder` | crates/mads-core/src/lifecycle.rs:116-131 | infrastructure by owner, then application, then by sequence is a total order |
| `Lifecycle.LifecycleManager.AddHook` | crates/mads-core/src/lifecycle.rs:67-78 | an application hook is registered with the next sequence number |
| `Lifecycle.LifecycleManager.AddInfrastructureHook` | crates/mads-core/src/lifecycle.rs:82-101 | an infrastructure hook is registered with its owner and the next sequence number |
| `Lifecycle.LifecycleManager.Start` | crates/mads-core/src/lifecycle.rs:110-156 | sorts, starts, rolls back on failure and sets the state as specified, for any pattern of failures |
| `Lifecycle.LifecycleManager.Shutdown` | crates/mads-core/src/lifecycle.rs:158-177 | stops every hook in reverse, goes on after failures and keeps the first one |
| `Lifecycle.RegisterKeeps` | crates/mads-core/src/lifecycle.rs:67-101 | one more registration before the start keeps the manager lawful |
| `Lifecycle.RegistrationsAreLawful` | crates/mads-core/src/lifecycle.rs:54-101 | a new manager with any list of registrations is lawful, holds them in order and has numbered them from zero |
| `Lifecycle.StartIsLawful` | crates/mads-core/src/lifecycle.rs:110-156 | starts follow the order; a failure at hook k is followed by stops of exactly the hooks before it, last first, even if stops fail |
| `Lifecycle.ShutdownIsLawful` | crates/mads-core/src/lifecycle.rs:158-177 | shutdown stops all started hooks in reverse and reports the first failure |
| `Lifecycle.FailuresMean` | crates/mads-core/src/lifecycle.rs:158-177 | no failure is reported if and only if every stop succeeded, and otherwise the first one reported is the first stop that failed |
| `Lifecycle.StoppedIsTerminal` | crates/mads-core/src/lifecycle.rs:110-177 | after a stop, any sequence of calls is refused and calls no hook |
| `Lifecycle.EveryRunIsLawful` | crates/mads-core/src/lifecycle.rs:110-177 | over every sequence of start and shutdown calls the trace is a prefix of one lawful start and one lawful shutdown |
| `Lifecycle.EveryHookIsSafe` | crates/mads-core/src/lifecycle.rs:110-177 | no hook is started twice, stopped twice or stopped without having started, and once the manager has stopped every started hook was told to stop |
| `Lifecycle.EveryManagerIsSafe` | crates/mads-core/src/lifecycle.rs:54-177 | a new manager with any registrations and any sequence of calls is lawful and safe for every hook, and once it has stopped every started hook was told to stop, whether or not that worked |
| `Lifecycle.EveryRunIsOrdered` | crates/mads-core/src/lifecycle.rs:110-177 | the manager keeps the hooks registered with it; after a start all starts go by infrastructure before applications, by owner, and by registration within an owner and among applications, all stops the other way round; and outcomes are recorded as they were |
| `Lifecycle.OperationsFit` | crates/mads-core/src/lifecycle.rs:110-177 | a start fits a new manager and a shutdown a running one, any other call is refused by name and changes nothing; an accepted start gives a running manager if and only if every hook starts |
| `ConsumerPath.ProvidersAreSorted` | crates/mads-core/src/builder.rs:463-479 | roots and dependencies are tried in an order that agrees with the order among providers |
| `ConsumerPath.RanksFollowProviders` | crates/mads-core/src/builder.rs:463-479 | an alternative tried earlier is a provider that sorts no later |
| `ConsumerPath.QueueRoots` | crates/mads-core/src/builder.rs:406-425 | exactly the providers nobody depends on are visited, and their paths are queued in order |
| `ConsumerPath.QueueDependencies` | crates/mads-core/src/builder.rs:438-457 | expanding a path visits exactly its dependencies, keeps everything found in order of length and then of steps, and covers every extension of the path |
| `ConsumerPath.FindConsumerPath` | crates/mads-core/src/builder.rs:397-461 | of all paths from a root along dependencies to the failing provider the search returns the first in order of length and then of provider order at each step, and nothing only if there is none |
| `ConsumerPath.FirstComesFirst` | crates/mads-core/src/builder.rs:463-479 | where another root path of the same length parts from the returned one, it goes to a provider that comes no earlier by name, then origin, then location, none first |
| `ConsumerPath.FirstIsShortest` | crates/mads-core/src/builder.rs:427-461 | no root path to the failing provider is shorter than that one |
| `ConsumerPath.ConsumerPath` | crates/mads-core/src/builder.rs:397-461 | on an acyclic graph with unique type identifiers, whose edges join listed providers, there is a result if and only if the failing provider has a consumer, and it names that first path |
| `ConsumerPath.RenderCuts` | crates/mads-core/src/builder.rs:430-434 | the text of a path can be cut at any step, with an arrow between the texts of the two parts |
| `ConsumerPath.RenderNames` | crates/mads-core/src/builder.rs:430-434 | so it begins with the name of the root and ends with that of the failing provider |
| `ConsumerPath.ConsumedIsReached` | crates/mads-core/src/builder.rs:397-461 | in an acyclic graph whose edges join listed providers, going back along consumers always ends at a root |
| `SqlNames.PlainNamesAreQuoted` | crates/mads-cli/src/database/sql.rs:68-78 | a schema and a table without double quotes are printed as they stand between double quotes, schema first, with a dot between |
| `SqlNames.QualifiedReadsBack` | crates/mads-cli/src/database/sql.rs:68-78 | a scanner that undoes quote doubling recovers schema and table from the rendered text, for all strings |
| `SqlNames.QualifiedIsInjective` | crates/mads-cli/src/database/sql.rs:68-78 | two names that print alike are equal, quotes and dots included |
| `SqlNames.ReadsOnlyQualified` | crates/mads-cli/src/database/sql.rs:68-78 | the scanner reads nothing but rendered names |
| `SqlTypes.ToSqlIsInjective` | crates/mads-cli/src/database/sql.rs:33-66 | types that print alike are equal, arrays nested to any depth and any length |
| `SqlTypes.TypeLengthExactly` | crates/mads-cli/src/database/catalog.rs:530-540 | the length parser accepts exactly the base name with an optional parenthesised 32-bit number |
| `SqlTypes.TemporalTypeExactly` | crates/mads-cli/src/database/catalog.rs:512-528 | the temporal check accepts exactly the base, an optional precision and the qualifier |
| `SqlTypes.ScalarSpellsOnce` | crates/mads-cli/src/database/catalog.rs:470-510 | no catalogue text spells two scalar types |
| `SqlTypes.ParseExactly` | crates/mads-cli/src/database/catalog.rs:470-540 | the parser returns a type for exactly the texts that spell it, so the order of its branches does not matter |
| `SqlTypes.SpellingReadsBack` | crates/mads-cli/src/database/catalog.rs:470-540 | the canonical catalogue spelling of every type is parsed back to that type |
| `SqlTypes.PrintedTypeIsMeant` | crates/mads-cli/src/database/sql.rs:33-66 | a printed type is read by the catalogue parser as that type, once `varchar`, `char`, `time` and `timestamp` are written in full as PostgreSQL does, arrays nested to any depth |
| `Publication.PublishGuard.Drop` | crates/mads-cli/src/database/publish.rs:284-294 | removes the staging tree, and the parent if it was created, unless disarmed |
| `Publication.FillAndRename` | crates/mads-cli/src/database/publish.rs:124-151 | writes, synchronises, prepares, renames and synchronises, stopping at the first failure |
| `Publication.PublishMigration` | crates/mads-cli/src/database/publish.rs:79-157 | the whole protocol with its guard agrees with the specification, call by call |
| `PublishSafety.PublicationIsSafe` | crates/mads-cli/src/database/publish.rs:79-157 | at every moment, every entry but what stands under the staging name that once existed still exists unchanged, and the final directory is absent, somebody else's, or ours with both complete files, the last exactly if the result is success or an error after the rename, and then until the end |
| `PublishRestores.FailureRestores` | crates/mads-cli/src/database/publish.rs:113-157 | any error before the rename, followed by clean-up calls that work, leaves all but the staging name as the rival alone would have left it if and only if that is not an empty directory which we had made |
| `PublishRestores.FailureRestoresAll` | crates/mads-cli/src/database/publish.rs:113-157 | if the staging name is ours, the whole directory is then as the rival alone would have left it if and only if it is not an empty one that we made |
| `PublishRestores.EmptyParentIsLost` | crates/mads-cli/src/database/publish.rs:103-121 | a second publisher that makes no entry before our clean-up loses the directory that it found |
| `PublishRestores.GuardMeetsExactly` | crates/mads-cli/src/database/publish.rs:139-157 | until the rename the guard finds our own directory under the staging name, and after it, when the last synchronisation fails, something if and only if the rival has taken that name since |
| `PublishRestores.RivalStagingIsLost` | crates/mads-cli/src/database/publish.rs:139-157 | so a rival that stages under that name in the last two calls loses its directory |
| `PublishRestores.IdleRivalChangesNothing` | crates/mads-cli/src/database/publish.rs:284-294 | an idle rival leaves the directory exactly as it was at the start, so that is what a cleaned-up failure restores |
| `PublishRestores.SucceedsExactly` | crates/mads-cli/src/database/publish.rs:79-157 | publication succeeds if and only if all eight calls work, `migrations` is no plain file, the staging name is free until it is taken and the final name until the rename |
| `PublishRestores.ResultNamesCall` | crates/mads-cli/src/database/publish.rs:79-157 | success means that none of the eight calls failed; an error names the first call that failed or, for the two directories and the rename, was refused |
| `PublishRestores.LeftoverIsKept` | crates/mads-cli/src/database/publish.rs:113-121 | a left-over staging entry stops publication and is not touched |
| `Timestamps.FitsExactly` | crates/mads-cli/src/database/publish.rs:49-57 | a timestamp exists if and only if the nanoseconds are below 10 to the 20th, and publication accepts it |
| `Timestamps.LaterSortsLater` | crates/mads-cli/src/database/publish.rs:13-17 | a later time gives a migration name that sorts strictly later |
| `ConfigMerge.ConfigDocument.InsertScalar` | crates/mads-core/src/config.rs:67-71 | the key now holds the scalar and nothing else, other keys are unchanged, and shapes stay disjoint |
| `ConfigMerge.ConfigDocument.InsertStringArray` | crates/mads-core/src/config.rs:74-83 | the key now holds the array and nothing else, other keys are unchanged, and shapes stay disjoint |
| `ConfigMerge.ConfigDocument.Len` | crates/mads-core/src/config.rs:91-93 | the length counts every declared key once |
| `TomlFiles.FlattenToml` | crates/mads-core/src/config.rs:386-430 | the recursive loop puts into the document exactly what the value says last about each key and lists its tables, or reports the first value that is not supported |
| `TomlFiles.InsertLeaf` | crates/mads-core/src/config.rs:432-438 | a scalar without a key is refused, and any other holds its key alone |
| `TomlFiles.LoadToml` | crates/mads-core/src/config.rs:283-362 | the source has a document exactly if the file is an optional one that is missing, or is parsed and all its values are supported; the document says what the file says |
| `TomlFiles.LoadScalars` | crates/mads-core/src/config.rs:117-119 | a source of scalars says exactly its scalars |
| `TomlFiles.LosesNothingExactly` | crates/mads-core/src/config.rs:386-430 | for any file, flattening loses no value if and only if values whose paths have one dotted form are equal |
| `TomlFiles.EveryKeyIsAPath` | crates/mads-core/src/config.rs:386-430 | for any file, a key is declared if and only if a value stands at a path of that dotted form, and what is declared stands at such a path |
| `TomlFiles.SaidIsDeclared` | crates/mads-core/src/config.rs:407-426 | a key is declared if and only if a text, a printed value or an array of texts stands at a path of that dotted form, and it is declared as such a value, the array element by element and in order |
| `TomlFiles.RefusalIsTrue` | crates/mads-core/src/config.rs:407-449 | the error of a refused file names a value by its dotted form and its type |
| `TomlFiles.TablesExactly` | crates/mads-core/src/config.rs:393-396 | the tables listed are the dotted forms of all tables of the file, the empty one apart |
| `TomlFiles.PlainKeysLoseNothing` | crates/mads-core/src/config.rs:386-430 | if all names are like bare keys, the dotted form of every path declares exactly what stands at its end, and is listed exactly if that is a table |
| `TomlFiles.KeyIsInjective` | crates/mads-core/src/config.rs:400-405 | paths of bare keys with the same dotted form are equal |
| `TomlFiles.LoadsExactly` | crates/mads-core/src/config.rs:386-438 | for any file and either treatment of arrays, flattening succeeds if and only if every value is of a supported type and no scalar has only empty names |
| `TomlFiles.DottedNameHides` | crates/mads-core/src/config.rs:400-405 | a quoted name with a dot can hide the value of another table |
| `TomlFiles.EmptyNameHides` | crates/mads-core/src/config.rs:400-405 | a value in a table with an empty name can be hidden by one beside that table |
| `TomlFiles.NamelessScalarIsRefused` | crates/mads-core/src/config.rs:432-438 | a scalar with an empty name at the root is of a supported type and yet refused |
| `ConfigMerge.PlaceholderExactly` | crates/mads-core/src/config.rs:791-798 | a value is the placeholder of a name if and only if it is that name in braces and the name is admissible |
| `ConfigMerge.ResolveElementsExactly` | crates/mads-core/src/config.rs:727-732 | an array resolves element by element, or fails at its first undefined placeholder |
| `ConfigMerge.WinnerSpeaksLast` | crates/mads-core/src/config.rs:690-719 | the winning entry is what the last source to declare the key says, with that source's origin |
| `ConfigMerge.LaterPairsOverride` | crates/mads-core/src/config.rs:667-685 | process variables override dotenv variables |
| `ConfigBuild.ReadDotenvs` | crates/mads-core/src/config.rs:667-678 | variables hold the last value of each name, or the first unreadable file is reported |
| `ConfigBuild.ReadEnvironment` | crates/mads-core/src/config.rs:679-685 | Unicode process variables are added over what was there, others ignored |
| `ConfigBuild.MergeDocument` | crates/mads-core/src/config.rs:696-718 | a document overrides value, shape and origin of exactly the keys it declares |
| `ConfigBuild.MergeSources` | crates/mads-core/src/config.rs:687-719 | the merged maps are disjoint and hold the winner of every key, or the first source that fails is reported |
| `ConfigBuild.InterpolateScalars` | crates/mads-core/src/config.rs:720-725 | every scalar is resolved in place, or the first failing key in order is reported |
| `ConfigBuild.InterpolateArrays` | crates/mads-core/src/config.rs:726-733 | every array is resolved in place, or the first failing key in order is reported |
| `ConfigBuild.BuildWithEnvironment` | crates/mads-core/src/config.rs:661-739 | the result is the interpolated winners, or the first failure among dotenv files, then sources, then scalars, then arrays |
| `ConfigBuild.OnlyWinnersMatter` | crates/mads-core/src/config.rs:687-738 | source lists with the same winners interpolate to the same configuration or fail for the same placeholder: overridden values never matter |
| `ConfigBuild.BuildIsDetermined` | crates/mads-core/src/config.rs:661-739 | a build has exactly one result, errors included, and two lists of loaded sources with the same winners have the same |
| `ConfigBuild.FailsExactly` | crates/mads-core/src/config.rs:720-757 | interpolation fails if and only if some surviving value or element is exactly the placeholder of an undefined variable, and it names such a one |
| `ConfigMeaning.EveryBuildMeans` | crates/mads-core/src/config.rs:661-739 | a successful build holds, for each key, what the last source to declare it says and that source's origin, with each placeholder replaced by the value set last in the environment or else in the dotenv files, any other text unchanged, and nothing else; a failed one names the first bad dotenv file, else the first source that does not load, else the first value, scalars before arrays and by key, with a placeholder that is not set |
| `ConfigMeaning.VariableNameExactly` | crates/mads-core/src/config.rs:791-798 | a placeholder can name any variable that is not empty and contains no start, end or default mark |
| `ModuleTree.SortedNames` | crates/mads-cli/src/render.rs:118-125 | sorting and removing duplicates gives the same names in strictly ascending order |
| `ModuleTree.CollectImports` | crates/mads-cli/src/render.rs:135-142 | the map lists, per importer, exactly its distinct imports in ascending order |
| `ModuleTree.RenderImports` | crates/mads-cli/src/render.rs:160-179 | the walk terminates on any graph and draws exactly the imports of the modules it newly visits, each once and in order; those of a module stand one level below the first line that names it, with only deeper lines between |
| `ModuleTree.RenderModules` | crates/mads-cli/src/render.rs:116-158 | the output is the root, each distinct import that leaves a reachable module exactly once and nested in this way, then the listed modules outside the tree |
| `ModuleTree.TreeIsDetermined` | crates/mads-cli/src/render.rs:160-179 | these conditions leave one drawing of a graph, in order and in depth |
| `ModuleTree.RenderingIsDetermined` | crates/mads-cli/src/render.rs:116-158 | reports with the same root, modules and imports are written alike, in whatever order and however often they list them |
| `ModuleTree.EveryModuleIsNamed` | crates/mads-cli/src/render.rs:116-158 | every listed module is named at least once |

## Left out

- DiffPlanner.PlanTables: does not return the warnings, which the source pushes in the same loops; `PlanWarnings.PlanDiff` collects them from the finished operations.
- DevLoop.ExecuteAction: a build over a build is an error in the model, where the source only asserts its absence in debug builds; it is proved never to happen.
- Lifecycle.LifecycleManager.Start: names the hooks whose rollback failed, without the texts of their errors.
- RouteCatalog.ValidateWithSelection: the selection of routes is an arbitrary predicate; guards and the module contexts of scoped routes are not modelled.
- Publication.PublishMigration: the rival only adds, be it the directory or entries of any name, and neither removes nor changes what is there nor puts a plain file in the place of `migrations`; the data lost by a crash between two synchronisations is not modelled.
- RouterPaths.InstallsExactly: the router itself is not part of this model, only that it keeps one path for each set of requests.
- TomlFiles.LoadToml: a parsed file is an input, so TOML syntax and the search for inline tables are not modelled.
- ConfigBuild.BuildWithEnvironment: the environment source with its key normalisation and dotenv syntax are not modelled.
- ModuleTree.RenderModules: gives the sequence of lines with their depths, without tree-drawing characters.
- Physical column positions: ordinals order the operations but are not part of the schema a plan reaches, as the planner ignores them on retained columns.
- PostgreSQL itself and its implicit rules, such as keys making columns non-null, and the queries that read the catalogue.
- Whole SQL documents: newline normalisation also rewrites line breaks inside identifiers, so quoting is stated on names, not on documents.
- Real processes, timers, file watching, asynchronous tasks and the router: only slots, events, outcomes and paths remain.
- Hooks added to a manager after it has started: the builder registers all hooks before.
- Provider graph planning and auto-configuration: the consumer-path search starts from a finished graph.
- Error texts and column widths, and the other reports of the renderer.
- Command-line parsing, code generation by macros, authentication and connection pools.
