/** The development supervisor's state.
  * Models `DevState` of crates/mads-cli/src/dev_state.rs and `ChangeImpact`
  * of crates/mads-cli/src/watch.rs.
  */
module DevState {
  import opened Wrappers

  datatype Impact = NoImpact | RestartImpact | RebuildImpact

  function Severity(i: Impact): nat {
    match i
    case NoImpact => 0
    case RestartImpact => 1
    case RebuildImpact => 2
  }

  function Worse(a: Impact, b: Impact): Impact {
    if Severity(a) < Severity(b) then b else a
  }

  /** The most severe of some changes. */
  function Merge(impacts: seq<Impact>): Impact {
    if impacts == [] then NoImpact else Worse(Merge(impacts[..|impacts| - 1]), impacts[|impacts| - 1])
  }

  /** A built binary, known by its identity. */
  datatype BuiltApplication = BuiltApplication(identity: nat)

  datatype DevEvent =
    | StartEvent
    | Changed(impact: Impact)
    | BuildSucceeded(built: BuiltApplication)
    | BuildFailed
    | ApplicationExited
    | ShutdownEvent

  datatype DevAction =
    | BuildAction
    | StartAction(built: BuiltApplication)
    | StopAction
    | RestartAction(built: BuiltApplication)
    | ExitAction

  datatype State = State(
    lastSuccessful: Option<BuiltApplication>,
    applicationRunning: bool,
    buildRunning: bool,
    pending: Impact,
    shuttingDown: bool)

  datatype Reaction = Reaction(state: State, actions: seq<DevAction>)

  const INITIAL := State(None, false, false, NoImpact, false)

  // ----- specification -----

  function StartBuild(s: State): Reaction {
    if s.buildRunning then Reaction(s, []) else Reaction(s.(buildRunning := true), [BuildAction])
  }

  function RestartLast(s: State): Reaction {
    if s.lastSuccessful.None? then Reaction(s, [])
    else if s.applicationRunning then Reaction(s, [RestartAction(s.lastSuccessful.value)])
    else Reaction(s.(applicationRunning := true), [StartAction(s.lastSuccessful.value)])
  }

  function HandleChange(s: State, impact: Impact): Reaction {
    if impact.NoImpact? then Reaction(s, [])
    else if s.buildRunning then Reaction(s.(pending := Worse(s.pending, impact)), [])
    else if impact.RestartImpact? then RestartLast(s)
    else StartBuild(s)
  }

  function HandleBuildSucceeded(s: State, built: BuiltApplication): Reaction {
    var actions := (if s.applicationRunning then [StopAction] else []) + [StartAction(built)];
    var s' := s.(lastSuccessful := Some(built), applicationRunning := true, buildRunning := false, pending := NoImpact);
    if s.pending.RebuildImpact?
    then Reaction(s'.(buildRunning := true), actions + [BuildAction])
    else Reaction(s', actions)
  }

  function HandleBuildFailed(s: State): Reaction {
    var s' := s.(buildRunning := false, pending := NoImpact);
    if s.pending.RebuildImpact? then Reaction(s'.(buildRunning := true), [BuildAction]) else Reaction(s', [])
  }

  function HandleShutdown(s: State): Reaction {
    Reaction(s.(applicationRunning := false, buildRunning := false, pending := NoImpact, shuttingDown := true),
             (if s.applicationRunning then [StopAction] else []) + [ExitAction])
  }

  function React(s: State, event: DevEvent): Reaction {
    if s.shuttingDown then Reaction(s, [])
    else
      match event
      case StartEvent => StartBuild(s)
      case Changed(impact) => HandleChange(s, impact)
      case BuildSucceeded(built) => HandleBuildSucceeded(s, built)
      case BuildFailed => HandleBuildFailed(s)
      case ApplicationExited => Reaction(s.(applicationRunning := false), [])
      case ShutdownEvent => HandleShutdown(s)
  }

  /** No event asks for a build while one is in flight. */
  lemma NoBuildOverBuild(s: State, event: DevEvent)
    requires s.buildRunning && !event.BuildSucceeded? && !event.BuildFailed?
    ensures BuildAction !in React(s, event).actions
  {}

  /** A shutdown stops the application if there is one, exits, and clears everything
    * but the last build; after it no event does anything.
    */
  lemma ShutdownIsFinal(s: State, event: DevEvent)
    requires !s.shuttingDown
    ensures var r := React(s, ShutdownEvent);
      && r.state == State(s.lastSuccessful, false, false, NoImpact, true)
      && r.actions == (if s.applicationRunning then [StopAction, ExitAction] else [ExitAction])
      && React(r.state, event) == Reaction(r.state, [])
  {}

  // ----- the state machine as a mutable object -----

  class Supervisor {
    var lastSuccessful: Option<BuiltApplication>
    var applicationRunning: bool
    var buildRunning: bool
    var pending: Impact
    var shuttingDown: bool

    function View(): State
      reads this
    {
      State(lastSuccessful, applicationRunning, buildRunning, pending, shuttingDown)
    }

    constructor ()
      ensures View() == INITIAL
    {
      lastSuccessful, applicationRunning, buildRunning := None, false, false;
      pending, shuttingDown := NoImpact, false;
    }

    method Transition(event: DevEvent) returns (actions: seq<DevAction>)
      modifies this
      ensures Reaction(View(), actions) == React(old(View()), event)
    {
      if shuttingDown {
        return [];
      }
      match event {
        case StartEvent => actions := StartBuilding();
        case Changed(impact) => actions := OnChange(impact);
        case BuildSucceeded(built) => actions := OnBuildSucceeded(built);
        case BuildFailed => actions := OnBuildFailed();
        case ApplicationExited =>
          applicationRunning := false;
          actions := [];
        case ShutdownEvent => actions := OnShutdown();
      }
    }

    method StartBuilding() returns (actions: seq<DevAction>)
      modifies `buildRunning
      ensures Reaction(View(), actions) == StartBuild(old(View()))
    {
      if buildRunning {
        return [];
      }
      buildRunning := true;
      return [BuildAction];
    }

    method OnChange(impact: Impact) returns (actions: seq<DevAction>)
      modifies this
      ensures Reaction(View(), actions) == HandleChange(old(View()), impact)
    {
      if impact == NoImpact {
        return [];
      }
      if buildRunning {
        pending := Worse(pending, impact);
        return [];
      }
      match impact {
        case NoImpact => actions := [];
        case RestartImpact => actions := RestartLastSuccessful();
        case RebuildImpact => actions := StartBuilding();
      }
    }

    method RestartLastSuccessful() returns (actions: seq<DevAction>)
      modifies `applicationRunning
      ensures Reaction(View(), actions) == RestartLast(old(View()))
    {
      if lastSuccessful.None? {
        return [];
      }
      if applicationRunning {
        return [RestartAction(lastSuccessful.value)];
      }
      applicationRunning := true;
      return [StartAction(lastSuccessful.value)];
    }

    method OnBuildSucceeded(built: BuiltApplication) returns (actions: seq<DevAction>)
      modifies this
      ensures Reaction(View(), actions) == HandleBuildSucceeded(old(View()), built)
    {
      buildRunning := false;
      var queued := pending;
      pending := NoImpact;
      lastSuccessful := Some(built);
      actions := if applicationRunning then [StopAction, StartAction(built)] else [StartAction(built)];
      applicationRunning := true;
      if queued == RebuildImpact {
        var more := StartBuilding();
        actions := actions + more;
      }
    }

    method OnBuildFailed() returns (actions: seq<DevAction>)
      modifies this
      ensures Reaction(View(), actions) == HandleBuildFailed(old(View()))
    {
      buildRunning := false;
      var queued := pending;
      pending := NoImpact;
      if queued == RebuildImpact {
        actions := StartBuilding();
      } else {
        actions := [];
      }
    }

    method OnShutdown() returns (actions: seq<DevAction>)
      modifies this
      ensures Reaction(View(), actions) == HandleShutdown(old(View()))
    {
      shuttingDown := true;
      buildRunning := false;
      pending := NoImpact;
      actions := [];
      if applicationRunning {
        applicationRunning := false;
        actions := actions + [StopAction];
      }
      actions := actions + [ExitAction];
    }
  }

  // ----- changes that arrive during a build -----

  /** Feeds changes one after the other. */
  function ReactToAll(s: State, impacts: seq<Impact>): Reaction
    decreases |impacts|
  {
    if impacts == [] then Reaction(s, [])
    else
      var first := React(s, Changed(impacts[0]));
      var rest := ReactToAll(first.state, impacts[1..]);
      Reaction(rest.state, first.actions + rest.actions)
  }

  lemma WorseLaws(a: Impact, b: Impact, c: Impact)
    ensures Worse(Worse(a, b), c) == Worse(a, Worse(b, c))
    ensures Worse(a, NoImpact) == a && Worse(NoImpact, a) == a
  {}

  lemma {:induction false} MergeCons(impacts: seq<Impact>)
    requires impacts != []
    ensures Merge(impacts) == Worse(impacts[0], Merge(impacts[1..]))
  {
    var n := |impacts| - 1;
    if n > 0 {
      MergeCons(impacts[..n]);
      assert impacts[..n][1..] == impacts[1..][..n - 1];
      WorseLaws(impacts[0], Merge(impacts[1..][..n - 1]), impacts[n]);
    } else {
      assert impacts[..0] == [] && impacts[1..] == [];
    }
  }

  /** While a build runs, any changes weigh exactly as much as the one merged
    * change of the watcher, and none of them causes an action.
    */
  lemma {:induction false} ChangesCoalesce(s: State, impacts: seq<Impact>)
    requires s.buildRunning && !s.shuttingDown
    ensures ReactToAll(s, impacts) == React(s, Changed(Merge(impacts)))
    ensures ReactToAll(s, impacts).actions == []
    decreases |impacts|
  {
    if impacts == [] {
    } else {
      MergeCons(impacts);
      var first := React(s, Changed(impacts[0]));
      ChangesCoalesce(first.state, impacts[1..]);
      WorseLaws(s.pending, impacts[0], Merge(impacts[1..]));
    }
  }

  /** What becomes of the changes seen during a build when it ends: a rebuild
    * among them starts the next build; a restart alone is served by the start of
    * the new binary, and is dropped when the build failed.
    */
  lemma QueuedChangesAreServed(s: State, impacts: seq<Impact>, built: BuiltApplication)
    requires s.buildRunning && !s.shuttingDown && s.pending.NoImpact?
    ensures var queued := ReactToAll(s, impacts).state;
            var failed, succeeded := React(queued, BuildFailed), React(queued, BuildSucceeded(built));
            && (BuildAction in failed.actions <==> RebuildImpact in impacts)
            && (BuildAction in succeeded.actions <==> RebuildImpact in impacts)
            && StartAction(built) in succeeded.actions
            && (RebuildImpact !in impacts ==> failed.actions == [] && failed.state == s.(buildRunning := false))
  {
    ChangesCoalesce(s, impacts);
    MergeFindsRebuild(impacts);
  }

  lemma {:induction false} MergeFindsRebuild(impacts: seq<Impact>)
    ensures Merge(impacts) == RebuildImpact <==> RebuildImpact in impacts
  {
    if impacts != [] {
      var n := |impacts| - 1;
      MergeFindsRebuild(impacts[..n]);
      assert impacts == impacts[..n] + [impacts[n]];
    }
  }
}
