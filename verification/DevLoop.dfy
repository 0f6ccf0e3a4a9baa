/** The supervisor's event loop with its build slot and process slot.
  * Models `run_dev_with_event_loop`, `execute_actions`, `cancel_active_build`
  * and `ProductionDevDriver` of crates/mads-cli/src/dev.rs.
  *
  * The world outside is arbitrary: `events` lists what `select!` delivers, and
  * `succeeds(n)` says whether the `n`-th call that can fail does succeed.
  */
module DevLoop {
  import opened Wrappers
  import opened DevState

  datatype LoopError =
    | SecondApplication     // a start found the process slot full
    | BuildOverBuild        // the assertion that the build slot is empty
    | DriverFailed          // spawning, stopping, polling or cancelling failed
    | WatcherFailed

  datatype Poll = StillRunning | HasExited | PollFailed

  datatype LoopEvent =
    | ShutdownSignal
    | ChangeReceived(change: Option<Impact>)          // `None`: the watcher failed
    | BuildFinished(result: Option<BuiltApplication>) // `None`: the build failed
    | Tick(poll: Poll)

  /** What is recorded of a run, in order. */
  datatype Entry =
    | RebuildRequested
    | BuildBegun
    | BuildEnded(result: Option<BuiltApplication>)
    | BuildCancelled
    | Started(built: BuiltApplication)
    | Stopped
    | Exited

  /** The loop's variables between two awaits. */
  datatype World = World(
    state: State,
    building: bool,
    process: Option<BuiltApplication>,
    calls: nat,
    trace: seq<Entry>)

  datatype Outcome = Continue | Exits | Fails(error: LoopError)

  datatype Executed = Executed(world: World, outcome: Outcome)

  // ----- specification: the driver's calls -----

  function Stop(w: World, succeeds: nat -> bool): Executed {
    if w.process.None? then Executed(w, Continue)
    else Executed(w.(process := None, calls := w.calls + 1, trace := w.trace + [Stopped]),
                  if succeeds(w.calls) then Continue else Fails(DriverFailed))
  }

  function Start(w: World, built: BuiltApplication, succeeds: nat -> bool): Executed {
    if w.process.Some? then Executed(w, Fails(SecondApplication))
    else if succeeds(w.calls)
    then Executed(w.(process := Some(built), calls := w.calls + 1, trace := w.trace + [Started(built)]), Continue)
    else Executed(w.(calls := w.calls + 1), Fails(DriverFailed))
  }

  function CancelBuild(w: World, succeeds: nat -> bool): Executed {
    if !w.building then Executed(w, Continue)
    else Executed(w.(building := false, calls := w.calls + 1, trace := w.trace + [BuildCancelled]),
                  if succeeds(w.calls) then Continue else Fails(DriverFailed))
  }

  function ExecuteOne(action: DevAction, w: World, succeeds: nat -> bool): Executed {
    match action
    case BuildAction =>
      if w.building then Executed(w, Fails(BuildOverBuild))
      else Executed(w.(building := true, trace := w.trace + [BuildBegun]), Continue)
    case StartAction(built) => Start(w, built, succeeds)
    case StopAction => Stop(w, succeeds)
    case RestartAction(built) =>
      var stopped := Stop(w, succeeds);
      if stopped.outcome.Continue? then Start(stopped.world, built, succeeds) else stopped
    case ExitAction => Executed(w.(trace := w.trace + [Exited]), Exits)
  }

  function ExecuteAll(actions: seq<DevAction>, w: World, succeeds: nat -> bool): Executed {
    if actions == [] then Executed(w, Continue)
    else
      var first := ExecuteOne(actions[0], w, succeeds);
      if first.outcome.Continue? then ExecuteAll(actions[1..], first.world, succeeds) else first
  }

  // ----- specification: one round of the loop -----

  function ReactAndExecute(w: World, event: DevEvent, succeeds: nat -> bool): Executed {
    var reaction := React(w.state, event);
    ExecuteAll(reaction.actions, w.(state := reaction.state), succeeds)
  }

  function Noted(w: World, impact: Impact): World {
    if impact.RebuildImpact? then w.(trace := w.trace + [RebuildRequested]) else w
  }

  function Ended(w: World, result: Option<BuiltApplication>): World {
    w.(trace := w.trace + [BuildEnded(result)])
  }

  /** Takes one event up to the next await. A build result can only be delivered
    * while a build is in its slot; elsewhere that branch never fires.
    */
  function Round(w: World, event: LoopEvent, succeeds: nat -> bool): Executed {
    match event
    case ShutdownSignal =>
      var cancelled := CancelBuild(w, succeeds);
      if cancelled.outcome.Continue? then ReactAndExecute(cancelled.world, ShutdownEvent, succeeds) else cancelled
    case ChangeReceived(None) => Executed(w, Fails(WatcherFailed))
    case ChangeReceived(Some(impact)) => ReactAndExecute(Noted(w, impact), Changed(impact), succeeds)
    case BuildFinished(result) =>
      if !w.building then Executed(w, Continue)
      else if result.Some?
      then ReactAndExecute(Ended(w, result).(building := false), BuildSucceeded(result.value), succeeds)
      else
        var cancelled := CancelBuild(Ended(w, result), succeeds);
        if cancelled.outcome.Continue? then ReactAndExecute(cancelled.world, BuildFailed, succeeds) else cancelled
    case Tick(poll) =>
      if w.process.None? || poll.StillRunning? then Executed(w, Continue)
      else if poll.PollFailed? then Executed(w, Fails(DriverFailed))
      else ReactAndExecute(w.(process := None), ApplicationExited, succeeds)
  }

  /** What runs after the loop was left with an error; its own failures are ignored. */
  function CleanUp(w: World, succeeds: nat -> bool): World {
    Stop(CancelBuild(w, succeeds).world, succeeds).world
  }

  datatype Status = Running | Returned(result: Result<(), LoopError>)

  datatype RunResult = RunResult(world: World, status: Status)

  function Settle(executed: Executed, succeeds: nat -> bool): RunResult {
    match executed.outcome
    case Continue => RunResult(executed.world, Running)
    case Exits => RunResult(executed.world, Returned(Success(())))
    case Fails(error) => RunResult(CleanUp(executed.world, succeeds), Returned(Failure(error)))
  }

  const INITIAL_WORLD := World(INITIAL, false, None, 0, [])

  function Begin(succeeds: nat -> bool): RunResult {
    Settle(ReactAndExecute(INITIAL_WORLD, StartEvent, succeeds), succeeds)
  }

  function Continued(r: RunResult, event: LoopEvent, succeeds: nat -> bool): RunResult {
    if r.status.Running? then Settle(Round(r.world, event, succeeds), succeeds) else r
  }

  /** The loop after `events`: still running, or returned. */
  function RunLoop(events: seq<LoopEvent>, succeeds: nat -> bool): RunResult {
    if events == [] then Begin(succeeds)
    else Continued(RunLoop(events[..|events| - 1], succeeds), events[|events| - 1], succeeds)
  }

  // ----- the loop as it runs -----

  /** The production driver: one slot for the application process. */
  class Driver {
    var application: Option<BuiltApplication>
    var calls: nat
    ghost var trace: seq<Entry>

    constructor ()
      ensures application == None && calls == 0 && trace == []
    {
      application, calls, trace := None, 0, [];
    }

    ghost function View(state: State, building: bool): World
      reads this
    {
      World(state, building, application, calls, trace)
    }

    method StartApplication(built: BuiltApplication, succeeds: nat -> bool, ghost state: State, ghost building: bool)
      returns (outcome: Outcome)
      modifies this
      ensures Executed(View(state, building), outcome) == Start(old(View(state, building)), built, succeeds)
    {
      if application.Some? {
        return Fails(SecondApplication);
      }
      var spawned := succeeds(calls);
      calls := calls + 1;
      if !spawned {
        return Fails(DriverFailed);
      }
      application := Some(built);
      trace := trace + [Started(built)];
      return Continue;
    }

    method StopApplication(succeeds: nat -> bool, ghost state: State, ghost building: bool) returns (outcome: Outcome)
      modifies this
      ensures Executed(View(state, building), outcome) == Stop(old(View(state, building)), succeeds)
    {
      if application.None? {
        return Continue;
      }
      application := None;
      var stopped := succeeds(calls);
      calls := calls + 1;
      trace := trace + [Stopped];
      return if stopped then Continue else Fails(DriverFailed);
    }

    /** Polls the process and empties the slot when it has exited. */
    method ApplicationHasExited(poll: Poll) returns (outcome: Outcome, exited: bool)
      modifies this
      ensures application == if exited then None else old(application)
      ensures calls == old(calls) && trace == old(trace)
      ensures exited <==> old(application).Some? && poll.HasExited?
      ensures outcome == if old(application).Some? && poll.PollFailed? then Fails(DriverFailed) else Continue
    {
      if application.None? {
        return Continue, false;
      }
      match poll {
        case PollFailed => return Fails(DriverFailed), false;
        case HasExited =>
          application := None;
          return Continue, true;
        case StillRunning => return Continue, false;
      }
    }
  }

  method CancelActiveBuild(driver: Driver, building: bool, succeeds: nat -> bool, ghost state: State)
    returns (outcome: Outcome, still: bool)
    modifies driver
    ensures Executed(driver.View(state, still), outcome) == CancelBuild(old(driver.View(state, building)), succeeds)
  {
    if !building {
      return Continue, false;
    }
    var cancelled := succeeds(driver.calls);
    driver.calls := driver.calls + 1;
    driver.trace := driver.trace + [BuildCancelled];
    return if cancelled then Continue else Fails(DriverFailed), false;
  }

  method ExecuteAction(action: DevAction, driver: Driver, slot: bool, succeeds: nat -> bool, ghost state: State)
    returns (outcome: Outcome, building: bool)
    modifies driver
    ensures Executed(driver.View(state, building), outcome)
         == ExecuteOne(action, old(driver.View(state, slot)), succeeds)
  {
    building := slot;
    match action {
      case BuildAction =>
        if building {
          outcome := Fails(BuildOverBuild);
        } else {
          building := true;
          driver.trace := driver.trace + [BuildBegun];
          outcome := Continue;
        }
      case StartAction(built) =>
        outcome := driver.StartApplication(built, succeeds, state, building);
      case StopAction =>
        outcome := driver.StopApplication(succeeds, state, building);
      case RestartAction(built) =>
        outcome := driver.StopApplication(succeeds, state, building);
        if outcome.Continue? {
          outcome := driver.StartApplication(built, succeeds, state, building);
        }
      case ExitAction =>
        driver.trace := driver.trace + [Exited];
        outcome := Exits;
    }
  }

  method ExecuteActions(actions: seq<DevAction>, driver: Driver, slot: bool, succeeds: nat -> bool, ghost state: State)
    returns (outcome: Outcome, building: bool)
    modifies driver
    ensures Executed(driver.View(state, building), outcome)
         == ExecuteAll(actions, old(driver.View(state, slot)), succeeds)
  {
    building := slot;
    for i := 0 to |actions|
      invariant ExecuteAll(actions[i..], driver.View(state, building), succeeds)
             == ExecuteAll(actions, old(driver.View(state, slot)), succeeds)
    {
      assert actions[i..][1..] == actions[i + 1..];
      outcome, building := ExecuteAction(actions[i], driver, building, succeeds, state);
      if !outcome.Continue? {
        return;
      }
    }
    outcome := Continue;
  }

  /** The branch of `select!` an event takes, up to the actions it asks for. */
  method HandleEvent(event: LoopEvent, supervisor: Supervisor, driver: Driver, slot: bool, succeeds: nat -> bool)
    returns (outcome: Outcome, building: bool)
    modifies supervisor, driver
    ensures Executed(driver.View(supervisor.View(), building), outcome)
         == Round(old(driver.View(supervisor.View(), slot)), event, succeeds)
  {
    outcome, building := Continue, slot;
    var actions := [];
    match event {
      case ShutdownSignal =>
        outcome, building := CancelActiveBuild(driver, building, succeeds, supervisor.View());
        if !outcome.Continue? {
          return;
        }
        actions := supervisor.Transition(ShutdownEvent);
      case ChangeReceived(None) =>
        return Fails(WatcherFailed), building;
      case ChangeReceived(Some(impact)) =>
        driver.trace := driver.trace + if impact.RebuildImpact? then [RebuildRequested] else [];
        assert impact.RebuildImpact? || driver.trace == old(driver.trace);
        actions := supervisor.Transition(Changed(impact));
      case BuildFinished(result) =>
        if !building {
          return;
        }
        driver.trace := driver.trace + [BuildEnded(result)];
        if result.Some? {
          building := false;
          actions := supervisor.Transition(BuildSucceeded(result.value));
        } else {
          outcome, building := CancelActiveBuild(driver, building, succeeds, supervisor.View());
          if !outcome.Continue? {
            return;
          }
          actions := supervisor.Transition(BuildFailed);
        }
      case Tick(poll) =>
        var exited;
        outcome, exited := driver.ApplicationHasExited(poll);
        if !outcome.Continue? || !exited {
          return;
        }
        actions := supervisor.Transition(ApplicationExited);
    }
    outcome, building := ExecuteActions(actions, driver, building, succeeds, supervisor.View());
  }

  method RunDevWithEventLoop(events: seq<LoopEvent>, succeeds: nat -> bool)
    returns (status: Status, supervisor: Supervisor, driver: Driver, building: bool)
    ensures fresh(supervisor) && fresh(driver)
    ensures RunResult(driver.View(supervisor.View(), building), status) == RunLoop(events, succeeds)
  {
    supervisor := new Supervisor();
    driver := new Driver();
    building := false;
    var actions := supervisor.Transition(StartEvent);
    var outcome;
    outcome, building := ExecuteActions(actions, driver, building, succeeds, supervisor.View());
    ghost var executed := Executed(driver.View(supervisor.View(), building), outcome);
    var i := 0;
    while outcome.Continue? && i < |events|
      invariant i <= |events| && fresh(supervisor) && fresh(driver)
      invariant executed == Executed(driver.View(supervisor.View(), building), outcome)
      invariant outcome.Continue? ==> Settle(executed, succeeds) == RunLoop(events[..i], succeeds)
      invariant !outcome.Continue? ==> Settle(executed, succeeds) == RunLoop(events, succeeds)
    {
      outcome, building := HandleEvent(events[i], supervisor, driver, building, succeeds);
      executed := Executed(driver.View(supervisor.View(), building), outcome);
      assert events[..i + 1][..i] == events[..i];
      if !outcome.Continue? { ReturnIsFinal(events, i + 1, succeeds); }
      i := i + 1;
    }
    assert events[..|events|] == events;
    match outcome {
      case Continue => status := Running;
      case Exits => status := Returned(Success(()));
      case Fails(error) =>
        var ignored;
        ignored, building := CancelActiveBuild(driver, building, succeeds, supervisor.View());
        ignored := driver.StopApplication(succeeds, supervisor.View(), building);
        status := Returned(Failure(error));
    }
  }

  lemma {:induction false} ReturnIsFinal(events: seq<LoopEvent>, k: nat, succeeds: nat -> bool)
    requires k <= |events| && RunLoop(events[..k], succeeds).status.Returned?
    ensures RunLoop(events, succeeds) == RunLoop(events[..k], succeeds)
    decreases |events| - k
  {
    if k < |events| {
      assert events[..k + 1][..k] == events[..k];
      ReturnIsFinal(events, k + 1, succeeds);
    } else {
      assert events[..k] == events;
    }
  }
}
