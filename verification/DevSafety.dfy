/** What holds in every run of the event loop, whatever the watcher, the builds,
  * the application and the driver do.
  */
module DevSafety {
  import opened Wrappers
  import opened DevState
  import opened DevLoop

  /** A rebuild was requested after the latest build began. */
  predicate Waiting(trace: seq<Entry>) {
    if trace == [] then false
    else
      match trace[|trace| - 1]
      case RebuildRequested => true
      case BuildBegun => false
      case _ => Waiting(trace[..|trace| - 1])
  }

  /** The last binary a build delivered. */
  function LastBuilt(trace: seq<Entry>): Option<BuiltApplication> {
    if trace == [] then None
    else
      match trace[|trace| - 1]
      case BuildEnded(Some(built)) => Some(built)
      case _ => LastBuilt(trace[..|trace| - 1])
  }

  lemma {:induction false} WaitingMeans(trace: seq<Entry>)
    ensures !Waiting(trace) <==>
      forall i :: 0 <= i < |trace| && trace[i] == RebuildRequested ==>
        exists j :: i < j < |trace| && trace[j] == BuildBegun
  {
    if trace != [] {
      var n := |trace| - 1;
      var before := trace[..n];
      WaitingMeans(before);
      match trace[n]
      case BuildBegun =>
      case RebuildRequested =>
      case _ =>
        if !Waiting(before) {
          forall i | 0 <= i < |trace| && trace[i] == RebuildRequested
            ensures exists j :: i < j < |trace| && trace[j] == BuildBegun
          {
            assert before[i] == RebuildRequested;
            var j :| i < j < |before| && before[j] == BuildBegun;
            assert trace[j] == BuildBegun;
          }
        } else {
          var i :| 0 <= i < |before| && before[i] == RebuildRequested
                && !exists j :: i < j < |before| && before[j] == BuildBegun;
          assert trace[i] == RebuildRequested;
          forall j | i < j < |trace| ensures trace[j] != BuildBegun {
            if j < n { assert before[j] == trace[j]; }
          }
        }
    }
  }

  lemma TraceGrows(trace: seq<Entry>, e: Entry)
    ensures Waiting(trace + [e])
         == (match e case RebuildRequested => true case BuildBegun => false case _ => Waiting(trace))
    ensures LastBuilt(trace + [e]) == (match e case BuildEnded(Some(built)) => Some(built) case _ => LastBuilt(trace))
    ensures Exited in trace + [e] <==> Exited in trace || e == Exited
  {
    assert (trace + [e])[..|trace|] == trace;
  }

  /** The flags agree with the slots, the running process is the last successful
    * build, and no rebuild request is waiting without a build in flight.
    */
  ghost predicate Agrees(w: World) {
    && !w.state.shuttingDown
    && w.state.applicationRunning == w.process.Some?
    && w.state.buildRunning == w.building
    && w.state.lastSuccessful == LastBuilt(w.trace)
    && (w.process.Some? ==> w.process == LastBuilt(w.trace))
    && (w.state.pending != NoImpact ==> w.building)
    && (Waiting(w.trace) <==> w.state.pending.RebuildImpact?)
    && Exited !in w.trace
  }

  ghost predicate SlotsEmpty(w: World) {
    !w.building && w.process.None?
  }

  /** The run ended with its one exit, and nothing after it. */
  ghost predicate ExitedLast(w: World) {
    w.trace != [] && w.trace[|w.trace| - 1] == Exited && Exited !in w.trace[..|w.trace| - 1]
  }

  /** How a round may end. */
  ghost predicate RoundIsSafe(e: Executed) {
    match e.outcome
    case Continue => Agrees(e.world)
    case Exits => SlotsEmpty(e.world) && ExitedLast(e.world)
    case Fails(error) => Exited !in e.world.trace && error != SecondApplication && error != BuildOverBuild
  }

  // ----- executing a few actions -----

  lemma ExecuteOneAction(a: DevAction, w: World, succeeds: nat -> bool)
    ensures ExecuteAll([a], w, succeeds) == ExecuteOne(a, w, succeeds)
  {
    assert [a][1..] == [];
    var first := ExecuteOne(a, w, succeeds);
    if first.outcome.Continue? { assert ExecuteAll([], first.world, succeeds) == first; }
  }

  lemma ExecuteFirst(a: DevAction, rest: seq<DevAction>, w: World, succeeds: nat -> bool)
    ensures ExecuteAll([a] + rest, w, succeeds)
         == (var first := ExecuteOne(a, w, succeeds);
             if first.outcome.Continue? then ExecuteAll(rest, first.world, succeeds) else first)
  {
    assert ([a] + rest)[1..] == rest;
  }

  /** Everything but the waiting request, which the build to come will serve. */
  ghost predicate AgreesButWaiting(w: World) {
    && !w.state.shuttingDown
    && w.state.applicationRunning == w.process.Some?
    && !w.building && !w.state.buildRunning
    && w.state.lastSuccessful == LastBuilt(w.trace)
    && (w.process.Some? ==> w.process == LastBuilt(w.trace))
    && w.state.pending.NoImpact?
    && Exited !in w.trace
  }

  lemma BuildIsSafe(w: World, succeeds: nat -> bool)
    requires AgreesButWaiting(w)
    ensures RoundIsSafe(ExecuteAll([BuildAction], w.(state := w.state.(buildRunning := true)), succeeds))
  {
    ExecuteOneAction(BuildAction, w.(state := w.state.(buildRunning := true)), succeeds);
    TraceGrows(w.trace, BuildBegun);
  }

  /** Starting `built`, after stopping what runs, possibly followed by a build. */
  lemma ReplaceIsSafe(w: World, built: BuiltApplication, rebuild: bool, succeeds: nat -> bool)
    requires !w.building && !w.state.shuttingDown && w.state.applicationRunning && w.state.buildRunning == rebuild
    requires w.state.lastSuccessful == Some(built) == LastBuilt(w.trace)
    requires w.state.pending.NoImpact? && Exited !in w.trace && (Waiting(w.trace) ==> rebuild)
    ensures var actions := (if w.process.Some? then [StopAction] else []) + [StartAction(built)]
                         + (if rebuild then [BuildAction] else []);
            RoundIsSafe(ExecuteAll(actions, w, succeeds))
  {
    var tail := if rebuild then [BuildAction] else [];
    var stopped := Stop(w, succeeds);
    TraceGrows(w.trace, Stopped);
    if w.process.Some? {
      assert [StopAction] + [StartAction(built)] + tail == [StopAction] + ([StartAction(built)] + tail);
      ExecuteFirst(StopAction, [StartAction(built)] + tail, w, succeeds);
    } else {
      assert [] + [StartAction(built)] + tail == [StartAction(built)] + tail;
    }
    if stopped.outcome.Continue? {
      StartThenBuildIsSafe(stopped.world, built, rebuild, succeeds);
    }
  }

  lemma StartThenBuildIsSafe(w: World, built: BuiltApplication, rebuild: bool, succeeds: nat -> bool)
    requires !w.building && !w.state.shuttingDown && w.state.applicationRunning && w.state.buildRunning == rebuild
    requires w.process.None? && w.state.lastSuccessful == Some(built) == LastBuilt(w.trace)
    requires w.state.pending.NoImpact? && Exited !in w.trace && (Waiting(w.trace) ==> rebuild)
    ensures RoundIsSafe(ExecuteAll([StartAction(built)] + (if rebuild then [BuildAction] else []), w, succeeds))
  {
    ExecuteFirst(StartAction(built), if rebuild then [BuildAction] else [], w, succeeds);
    var started := Start(w, built, succeeds);
    TraceGrows(w.trace, Started(built));
    if started.outcome.Continue? && rebuild {
      ExecuteOneAction(BuildAction, started.world, succeeds);
      TraceGrows(started.world.trace, BuildBegun);
    }
  }

  // ----- one round -----

  lemma MergedChangeIsSafe(w: World, impact: Impact, succeeds: nat -> bool)
    requires Agrees(w) && w.building
    ensures RoundIsSafe(Round(w, ChangeReceived(Some(impact)), succeeds))
  {
    TraceGrows(w.trace, RebuildRequested);
    var noted := Noted(w, impact);
    assert React(noted.state, Changed(impact)).actions == [];
  }

  lemma RequestedBuildIsSafe(w: World, succeeds: nat -> bool)
    requires Agrees(w) && !w.building
    ensures RoundIsSafe(Round(w, ChangeReceived(Some(RebuildImpact)), succeeds))
  {
    TraceGrows(w.trace, RebuildRequested);
    BuildIsSafe(Noted(w, RebuildImpact), succeeds);
  }

  lemma ChangeIsSafe(w: World, impact: Impact, succeeds: nat -> bool)
    requires Agrees(w)
    ensures RoundIsSafe(Round(w, ChangeReceived(Some(impact)), succeeds))
  {
    if w.building {
      MergedChangeIsSafe(w, impact, succeeds);
    } else if impact.RebuildImpact? {
      RequestedBuildIsSafe(w, succeeds);
    } else if impact.RestartImpact? && w.state.lastSuccessful.Some? {
      RestartIsSafe(w, w.state.lastSuccessful.value, succeeds);
    } else {
      assert React(w.state, Changed(impact)) == Reaction(w.state, []);
    }
  }

  lemma RestartIsSafe(w: World, last: BuiltApplication, succeeds: nat -> bool)
    requires Agrees(w) && !w.building && w.state.lastSuccessful == Some(last)
    ensures RoundIsSafe(Round(w, ChangeReceived(Some(RestartImpact)), succeeds))
  {
    if w.process.Some? {
      ExecuteOneAction(RestartAction(last), w, succeeds);
      var stopped := Stop(w, succeeds);
      TraceGrows(w.trace, Stopped);
      TraceGrows(stopped.world.trace, Started(last));
    } else {
      var w' := w.(state := w.state.(applicationRunning := true));
      ExecuteOneAction(StartAction(last), w', succeeds);
      TraceGrows(w.trace, Started(last));
    }
  }

  lemma BuildSuccessIsSafe(w: World, built: BuiltApplication, succeeds: nat -> bool)
    requires Agrees(w) && w.building
    ensures RoundIsSafe(Round(w, BuildFinished(Some(built)), succeeds))
  {
    TraceGrows(w.trace, BuildEnded(Some(built)));
    var rebuild := w.state.pending.RebuildImpact?;
    var ended := Ended(w, Some(built)).(building := false);
    var replaced := ended.(state := HandleBuildSucceeded(w.state, built).state);
    ReplaceIsSafe(replaced, built, rebuild, succeeds);
    BuildSuccessReplaces(w, built, succeeds);
  }

  lemma BuildSuccessReplaces(w: World, built: BuiltApplication, succeeds: nat -> bool)
    requires Agrees(w) && w.building
    ensures Round(w, BuildFinished(Some(built)), succeeds)
         == ExecuteAll((if w.process.Some? then [StopAction] else []) + [StartAction(built)]
                         + (if w.state.pending.RebuildImpact? then [BuildAction] else []),
                       Ended(w, Some(built)).(building := false, state := HandleBuildSucceeded(w.state, built).state),
                       succeeds)
  {
    var base := (if w.process.Some? then [StopAction] else []) + [StartAction(built)];
    assert base + [] == base;
  }

  lemma BuildFailureIsSafe(w: World, succeeds: nat -> bool)
    requires Agrees(w) && w.building
    ensures RoundIsSafe(Round(w, BuildFinished(None), succeeds))
  {
    TraceGrows(w.trace, BuildEnded(None));
    var ended := Ended(w, None);
    TraceGrows(ended.trace, BuildCancelled);
    var cancelled := CancelBuild(ended, succeeds);
    if cancelled.outcome.Continue? && w.state.pending.RebuildImpact? {
      BuildIsSafe(cancelled.world.(state := w.state.(buildRunning := false, pending := NoImpact)), succeeds);
    }
  }

  lemma BuildResultIsSafe(w: World, result: Option<BuiltApplication>, succeeds: nat -> bool)
    requires Agrees(w) && w.building
    ensures RoundIsSafe(Round(w, BuildFinished(result), succeeds))
  {
    match result
    case Some(built) => BuildSuccessIsSafe(w, built, succeeds);
    case None => BuildFailureIsSafe(w, succeeds);
  }

  /** Stopping the application, if there is one, and leaving. */
  lemma LeaveIsSafe(w: World, succeeds: nat -> bool)
    requires !w.building && Exited !in w.trace
    ensures var e := ExecuteAll((if w.process.Some? then [StopAction] else []) + [ExitAction], w, succeeds);
            e.outcome == (if w.process.Some? && !succeeds(w.calls) then Fails(DriverFailed) else Exits)
            && RoundIsSafe(e)
  {
    var stopped := Stop(w, succeeds);
    TraceGrows(w.trace, Stopped);
    var trace := stopped.world.trace;
    assert (trace + [Exited])[..|trace|] == trace;
    ExecuteOneAction(ExitAction, stopped.world, succeeds);
    if w.process.Some? {
      ExecuteFirst(StopAction, [ExitAction], w, succeeds);
    } else {
      assert [] + [ExitAction] == [ExitAction];
    }
  }

  lemma ShutdownLeaves(w: World, succeeds: nat -> bool)
    requires Agrees(w) && CancelBuild(w, succeeds).outcome.Continue?
    ensures Round(w, ShutdownSignal, succeeds)
         == ExecuteAll((if w.process.Some? then [StopAction] else []) + [ExitAction],
                       CancelBuild(w, succeeds).world.(state := HandleShutdown(w.state).state), succeeds)
  {
    assert CancelBuild(w, succeeds).world.state == w.state;
    assert React(w.state, ShutdownEvent) == HandleShutdown(w.state);
  }

  lemma CancelKeepsTrace(w: World, succeeds: nat -> bool)
    requires Exited !in w.trace
    ensures var c := CancelBuild(w, succeeds);
            !c.world.building && Exited !in c.world.trace && c.world.process == w.process
            && c.world.calls == w.calls + (if w.building then 1 else 0)
            && c.outcome == if w.building && !succeeds(w.calls) then Fails(DriverFailed) else Continue
  {
    TraceGrows(w.trace, BuildCancelled);
  }

  lemma ShutdownIsSafe(w: World, succeeds: nat -> bool)
    requires Agrees(w)
    ensures var e := Round(w, ShutdownSignal, succeeds);
            RoundIsSafe(e) && e.outcome == if ShutdownSucceeds(w, succeeds) then Exits else Fails(DriverFailed)
  {
    CancelKeepsTrace(w, succeeds);
    var cancelled := CancelBuild(w, succeeds);
    if cancelled.outcome.Continue? {
      ShutdownLeaves(w, succeeds);
      LeaveIsSafe(cancelled.world.(state := HandleShutdown(w.state).state), succeeds);
    } else {
      assert Round(w, ShutdownSignal, succeeds) == cancelled;
    }
  }

  /** Cancelling the build in flight and stopping the application both work. */
  predicate ShutdownSucceeds(w: World, succeeds: nat -> bool) {
    && (w.building ==> succeeds(w.calls))
    && (w.process.Some? ==> succeeds(w.calls + if w.building then 1 else 0))
  }

  lemma RoundKeeps(w: World, event: LoopEvent, succeeds: nat -> bool)
    requires Agrees(w)
    ensures RoundIsSafe(Round(w, event, succeeds))
  {
    match event
    case ShutdownSignal => ShutdownIsSafe(w, succeeds);
    case ChangeReceived(None) =>
    case ChangeReceived(Some(impact)) => ChangeIsSafe(w, impact, succeeds);
    case BuildFinished(result) => if w.building { BuildResultIsSafe(w, result, succeeds); }
    case Tick(_) =>
  }

  // ----- every run -----

  ghost predicate RunIsSafe(r: RunResult) {
    match r.status
    case Running => Agrees(r.world)
    case Returned(Success(_)) => SlotsEmpty(r.world) && ExitedLast(r.world)
    case Returned(Failure(error)) =>
      SlotsEmpty(r.world) && Exited !in r.world.trace && error != SecondApplication && error != BuildOverBuild
  }

  lemma SettleIsSafe(e: Executed, succeeds: nat -> bool)
    requires RoundIsSafe(e)
    ensures RunIsSafe(Settle(e, succeeds))
  {
    if e.outcome.Fails? {
      TraceGrows(e.world.trace, BuildCancelled);
      var cancelled := CancelBuild(e.world, succeeds).world;
      TraceGrows(cancelled.trace, Stopped);
    }
  }

  /** In every run: while the loop runs, flags and slots agree, the process is the
    * last successful build and no rebuild request is lost; the loop never starts a
    * second application nor a build over another; when it returns, with success
    * or error, both slots are empty; and an exit is performed exactly when it
    * returns with success, once, as the last thing.
    */
  lemma {:induction false} EveryRunIsSafe(events: seq<LoopEvent>, succeeds: nat -> bool)
    ensures RunIsSafe(RunLoop(events, succeeds))
  {
    if events == [] {
      BuildIsSafe(INITIAL_WORLD, succeeds);
      SettleIsSafe(ReactAndExecute(INITIAL_WORLD, StartEvent, succeeds), succeeds);
    } else {
      var before := RunLoop(events[..|events| - 1], succeeds);
      EveryRunIsSafe(events[..|events| - 1], succeeds);
      if before.status.Running? {
        RoundKeeps(before.world, events[|events| - 1], succeeds);
        SettleIsSafe(Round(before.world, events[|events| - 1], succeeds), succeeds);
      }
    }
  }

  /** No rebuild request is lost: with no build in flight, every request so far
    * was followed by the beginning of a build.
    */
  lemma NoRequestIsLost(events: seq<LoopEvent>, succeeds: nat -> bool, i: nat)
    requires var r := RunLoop(events, succeeds);
             r.status.Running? && !r.world.building && i < |r.world.trace| && r.world.trace[i] == RebuildRequested
    ensures var trace := RunLoop(events, succeeds).world.trace;
            exists j :: i < j < |trace| && trace[j] == BuildBegun
  {
    EveryRunIsSafe(events, succeeds);
    WaitingMeans(RunLoop(events, succeeds).world.trace);
  }

  /** A shutdown signal ends the loop at once: with its exit exactly when the
    * build in flight can be cancelled and the application stopped, and with an
    * error otherwise.
    */
  lemma ShutdownEndsTheLoop(events: seq<LoopEvent>, succeeds: nat -> bool)
    requires RunLoop(events, succeeds).status.Running?
    ensures var r := RunLoop(events + [ShutdownSignal], succeeds);
            r.status == if ShutdownSucceeds(RunLoop(events, succeeds).world, succeeds)
                        then Returned(Success(())) else Returned(Failure(DriverFailed))
  {
    EveryRunIsSafe(events, succeeds);
    var w := RunLoop(events, succeeds).world;
    ShutdownIsSafe(w, succeeds);
    assert (events + [ShutdownSignal])[..|events|] == events;
  }
}
