/** What the supervisor does about each event, told from its slots and its record
  * alone: no flag, action or queued change is mentioned.
  */
module DevAnswers {
  import opened Wrappers
  import opened DevState
  import opened DevLoop
  import opened DevSafety

  // ----- the answer to an event -----

  function StopIfRunning(process: Option<BuiltApplication>): seq<Entry> {
    if process.Some? then [Stopped] else []
  }

  /** A build begins again if one was requested since the last began. */
  function BuildIfWaiting(trace: seq<Entry>): seq<Entry> {
    if Waiting(trace) then [BuildBegun] else []
  }

  /** What is added to the record. */
  function Answer(w: World, event: LoopEvent): seq<Entry> {
    match event
    case ShutdownSignal => (if w.building then [BuildCancelled] else []) + StopIfRunning(w.process) + [Exited]
    case ChangeReceived(Some(RebuildImpact)) => [RebuildRequested] + if w.building then [] else [BuildBegun]
    case ChangeReceived(Some(RestartImpact)) =>
      if w.building || LastBuilt(w.trace).None? then []
      else StopIfRunning(w.process) + [Started(LastBuilt(w.trace).value)]
    case BuildFinished(Some(built)) =>
      if !w.building then []
      else [BuildEnded(Some(built))] + StopIfRunning(w.process) + [Started(built)] + BuildIfWaiting(w.trace)
    case BuildFinished(None) =>
      if !w.building then [] else [BuildEnded(None), BuildCancelled] + BuildIfWaiting(w.trace)
    case _ => []
  }

  /** The entries that record a call which can fail. */
  function CallsIn(entries: seq<Entry>): nat {
    if entries == [] then 0
    else CallsIn(entries[..|entries| - 1])
         + match entries[|entries| - 1]
           case BuildCancelled => 1
           case Started(_) => 1
           case Stopped => 1
           case _ => 0
  }

  function ProcessAfter(process: Option<BuiltApplication>, entries: seq<Entry>): Option<BuiltApplication> {
    if entries == [] then process
    else
      match entries[|entries| - 1]
      case Started(built) => Some(built)
      case Stopped => None
      case _ => ProcessAfter(process, entries[..|entries| - 1])
  }

  function BuildingAfter(building: bool, entries: seq<Entry>): bool {
    if entries == [] then building
    else
      match entries[|entries| - 1]
      case BuildBegun => true
      case BuildCancelled => false
      case BuildEnded(Some(_)) => false
      case _ => BuildingAfter(building, entries[..|entries| - 1])
  }

  /** The slots and the record after the entries of an answer; an exit of the
    * application empties its slot without an entry.
    */
  ghost predicate Follows(w: World, event: LoopEvent, entries: seq<Entry>, w': World) {
    && w'.trace == w.trace + entries
    && w'.calls == w.calls + CallsIn(entries)
    && w'.building == BuildingAfter(w.building, entries)
    && w'.process == if event == Tick(HasExited) then None else ProcessAfter(w.process, entries)
  }

  /** The watcher has failed, or polling a running application has. */
  predicate IsBroken(w: World, event: LoopEvent) {
    event == ChangeReceived(None) || (event == Tick(PollFailed) && w.process.Some?)
  }

  ghost predicate CallsSucceed(first: nat, count: nat, succeeds: nat -> bool) {
    forall n :: first <= n < first + count ==> succeeds(n)
  }

  /** The first of these calls that fails. */
  ghost predicate FailsFirst(first: nat, count: nat, succeeds: nat -> bool, m: nat) {
    first <= m < first + count && !succeeds(m) && CallsSucceed(first, m - first, succeeds)
  }

  /** The loop fails at the first of the answer's calls that does, and makes no other. */
  ghost predicate EndsAtFailure(w: World, entries: seq<Entry>, succeeds: nat -> bool, e: Executed) {
    && e.outcome == Fails(DriverFailed)
    && exists m: nat :: FailsFirst(w.calls, CallsIn(entries), succeeds, m) && e.world.calls == m + 1
  }

  /** What a round comes to. */
  ghost predicate IsAnswered(w: World, event: LoopEvent, succeeds: nat -> bool, e: Executed) {
    if IsBroken(w, event) then e.outcome == Fails(if event.Tick? then DriverFailed else WatcherFailed)
    else if CallsSucceed(w.calls, CallsIn(Answer(w, event)), succeeds)
    then Follows(w, event, Answer(w, event), e.world) && e.outcome == if event.ShutdownSignal? then Exits else Continue
    else EndsAtFailure(w, Answer(w, event), succeeds, e)
  }

  // ----- entries, one by one -----

  lemma OneMore(process: Option<BuiltApplication>, building: bool, entries: seq<Entry>, e: Entry)
    ensures CallsIn(entries + [e])
         == CallsIn(entries) + if e.BuildCancelled? || e.Started? || e.Stopped? then 1 else 0
    ensures ProcessAfter(process, entries + [e])
         == match e case Started(b) => Some(b) case Stopped => None case _ => ProcessAfter(process, entries)
    ensures BuildingAfter(building, entries + [e])
         == match e
            case BuildBegun => true
            case BuildCancelled => false
            case BuildEnded(Some(_)) => false
            case _ => BuildingAfter(building, entries)
  {
    assert (entries + [e])[..|entries|] == entries;
  }

  /** The world shows what the entries record, and all calls made on the way worked. */
  ghost predicate Recorded(w: World, entries: seq<Entry>, succeeds: nat -> bool, e: Executed) {
    && e.outcome.Continue? && e.world.trace == w.trace + entries && e.world.calls == w.calls + CallsIn(entries)
    && e.world.building == BuildingAfter(w.building, entries)
    && e.world.process == ProcessAfter(w.process, entries)
    && CallsSucceed(w.calls, CallsIn(entries), succeeds)
  }

  /** Either all the calls worked, or the loop stopped at one that failed. */
  ghost predicate Performed(w: World, entries: seq<Entry>, succeeds: nat -> bool, e: Executed) {
    Recorded(w, entries, succeeds, e) || EndsAtFailure(w, entries, succeeds, e)
  }

  lemma NothingPerformed(w: World, succeeds: nat -> bool)
    ensures Performed(w, [], succeeds, Executed(w, Continue))
  {
    assert w.trace + [] == w.trace;
  }

  lemma {:induction false} MoreCalls(a: seq<Entry>, b: seq<Entry>)
    ensures CallsIn(a + b) == CallsIn(a) + CallsIn(b)
    decreases |b|
  {
    if b == [] {
      assert a + b == a;
    } else {
      var n := |b| - 1;
      MoreCalls(a, b[..n]);
      assert a + b == (a + b[..n]) + [b[n]] && b == b[..n] + [b[n]];
      OneMore(None, false, a + b[..n], b[n]);
      OneMore(None, false, b[..n], b[n]);
    }
  }

  lemma {:induction false} MoreEntries(process: Option<BuiltApplication>, building: bool, a: seq<Entry>, b: seq<Entry>)
    ensures ProcessAfter(process, a + b) == ProcessAfter(ProcessAfter(process, a), b)
    ensures BuildingAfter(building, a + b) == BuildingAfter(BuildingAfter(building, a), b)
    decreases |b|
  {
    if b == [] {
      assert a + b == a;
    } else {
      var n := |b| - 1;
      MoreEntries(process, building, a, b[..n]);
      assert a + b == (a + b[..n]) + [b[n]] && b == b[..n] + [b[n]];
      OneMore(process, building, a + b[..n], b[n]);
      OneMore(ProcessAfter(process, a), BuildingAfter(building, a), b[..n], b[n]);
    }
  }

  /** What is done next, unless something has failed. */
  function Next(first: Executed, second: Executed): Executed {
    if first.outcome.Continue? then second else first
  }

  lemma ThenPerformed(w: World, a: seq<Entry>, first: Executed, b: seq<Entry>, second: Executed, succeeds: nat -> bool)
    requires Performed(w, a, succeeds, first)
    requires first.outcome.Continue? ==> Performed(first.world, b, succeeds, second)
    ensures Performed(w, a + b, succeeds, Next(first, second))
  {
    MoreCalls(a, b);
    MoreEntries(w.process, w.building, a, b);
    if first.outcome.Continue? {
      assert w.trace + a + b == w.trace + (a + b);
      if second.outcome.Fails? {
        var m: nat :| FailsFirst(first.world.calls, CallsIn(b), succeeds, m) && second.world.calls == m + 1;
        assert FailsFirst(w.calls, CallsIn(a + b), succeeds, m);
      }
    } else {
      var m: nat :| FailsFirst(w.calls, CallsIn(a), succeeds, m) && first.world.calls == m + 1;
      assert FailsFirst(w.calls, CallsIn(a + b), succeeds, m);
    }
  }

  lemma OneEntry(process: Option<BuiltApplication>, building: bool, e: Entry)
    ensures CallsIn([e]) == if e.BuildCancelled? || e.Started? || e.Stopped? then 1 else 0
    ensures ProcessAfter(process, [e]) == match e case Started(b) => Some(b) case Stopped => None case _ => process
    ensures BuildingAfter(building, [e])
         == match e
            case BuildBegun => true
            case BuildCancelled => false
            case BuildEnded(Some(_)) => false
            case _ => building
  {
    assert [e][..0] == [];
  }

  lemma OneCall(n: nat, succeeds: nat -> bool)
    ensures if succeeds(n) then CallsSucceed(n, 1, succeeds) else FailsFirst(n, 1, succeeds, n)
  {}

  lemma StopPerforms(w: World, succeeds: nat -> bool)
    ensures Performed(w, StopIfRunning(w.process), succeeds, Stop(w, succeeds))
    ensures Stop(w, succeeds).outcome.Continue? ==> Stop(w, succeeds).world.process.None?
  {
    if w.process.Some? {
      OneEntry(w.process, w.building, Stopped);
      OneCall(w.calls, succeeds);
    } else {
      NothingPerformed(w, succeeds);
    }
  }

  lemma StartPerforms(w: World, built: BuiltApplication, succeeds: nat -> bool)
    requires w.process.None?
    ensures Performed(w, [Started(built)], succeeds, Start(w, built, succeeds))
  {
    OneEntry(w.process, w.building, Started(built));
    OneCall(w.calls, succeeds);
  }

  /** Stopping what runs and starting a binary. */
  lemma ReplacePerforms(w: World, built: BuiltApplication, succeeds: nat -> bool)
    ensures var stopped := Stop(w, succeeds);
      Performed(w, StopIfRunning(w.process) + [Started(built)], succeeds,
                Next(stopped, Start(stopped.world, built, succeeds)))
  {
    StopPerforms(w, succeeds);
    var stopped := Stop(w, succeeds);
    if stopped.outcome.Continue? { StartPerforms(stopped.world, built, succeeds); }
    ThenPerformed(w, StopIfRunning(w.process), stopped,
                  [Started(built)], Start(stopped.world, built, succeeds), succeeds);
  }

  lemma CancelPerforms(w: World, succeeds: nat -> bool)
    ensures Performed(w, if w.building then [BuildCancelled] else [], succeeds, CancelBuild(w, succeeds))
  {
    if w.building {
      OneEntry(w.process, w.building, BuildCancelled);
      OneCall(w.calls, succeeds);
    } else {
      NothingPerformed(w, succeeds);
    }
  }

  lemma BuildPerforms(w: World, succeeds: nat -> bool)
    requires !w.building
    ensures Performed(w, [BuildBegun], succeeds, ExecuteOne(BuildAction, w, succeeds))
  {
    OneEntry(w.process, w.building, BuildBegun);
  }

  lemma NotePerforms(w: World, e: Entry, succeeds: nat -> bool)
    requires e.RebuildRequested? || e == BuildEnded(None)
    ensures Performed(w, [e], succeeds, Executed(w.(trace := w.trace + [e]), Continue))
  {
    OneEntry(w.process, w.building, e);
  }

  lemma EndPerforms(w: World, built: BuiltApplication, succeeds: nat -> bool)
    ensures Performed(w, [BuildEnded(Some(built))], succeeds,
                      Executed(Ended(w, Some(built)).(building := false), Continue))
  {
    OneEntry(w.process, w.building, BuildEnded(Some(built)));
  }

  // ----- changes -----

  lemma RebuildIsAnswered(w: World, succeeds: nat -> bool)
    requires Agrees(w)
    ensures Performed(w, Answer(w, ChangeReceived(Some(RebuildImpact))), succeeds,
                      Round(w, ChangeReceived(Some(RebuildImpact)), succeeds))
  {
    var noted := Noted(w, RebuildImpact);
    NotePerforms(w, RebuildRequested, succeeds);
    if w.building {
      assert [RebuildRequested] + [] == [RebuildRequested];
    } else {
      var asked := noted.(state := noted.state.(buildRunning := true));
      ExecuteOneAction(BuildAction, asked, succeeds);
      BuildPerforms(asked, succeeds);
      ThenPerformed(w, [RebuildRequested], Executed(asked, Continue), [BuildBegun],
                    ExecuteOne(BuildAction, asked, succeeds), succeeds);
    }
  }

  /** A restart starts the last successful build again. */
  lemma RestartIsAnswered(w: World, succeeds: nat -> bool)
    requires Agrees(w)
    ensures Performed(w, Answer(w, ChangeReceived(Some(RestartImpact))), succeeds,
                      Round(w, ChangeReceived(Some(RestartImpact)), succeeds))
  {
    NothingPerformed(w, succeeds);
    if !w.building && LastBuilt(w.trace).Some? {
      var built := LastBuilt(w.trace).value;
      ReplacePerforms(w, built, succeeds);
      if w.process.Some? {
        ExecuteOneAction(RestartAction(built), w, succeeds);
      } else {
        var flagged := w.(state := w.state.(applicationRunning := true));
        ReplacePerforms(flagged, built, succeeds);
        ExecuteOneAction(StartAction(built), flagged, succeeds);
      }
    }
  }

  // ----- build results -----

  /** The actions after a successful build, in the order of the record. */
  lemma ReplaceThenBuild(w: World, built: BuiltApplication, rebuild: bool, succeeds: nat -> bool)
    requires !w.building
    ensures Performed(w, StopIfRunning(w.process) + [Started(built)] + (if rebuild then [BuildBegun] else []), succeeds,
                      ExecuteAll((if w.process.Some? then [StopAction] else []) + [StartAction(built)]
                                   + (if rebuild then [BuildAction] else []), w, succeeds))
  {
    var stopped := Stop(w, succeeds);
    var started := Start(stopped.world, built, succeeds);
    var replaced := Next(stopped, started);
    ReplacePerforms(w, built, succeeds);
    ExecuteReplace(w, built, rebuild, succeeds);
    if rebuild {
      if replaced.outcome.Continue? { BuildPerforms(replaced.world, succeeds); }
      ThenPerformed(w, StopIfRunning(w.process) + [Started(built)], replaced, [BuildBegun],
                    ExecuteOne(BuildAction, replaced.world, succeeds), succeeds);
    } else {
      assert StopIfRunning(w.process) + [Started(built)] + [] == StopIfRunning(w.process) + [Started(built)];
    }
  }

  lemma ExecuteReplace(w: World, built: BuiltApplication, rebuild: bool, succeeds: nat -> bool)
    ensures var stopped := Stop(w, succeeds);
      var replaced := Next(stopped, Start(stopped.world, built, succeeds));
      ExecuteAll((if w.process.Some? then [StopAction] else []) + [StartAction(built)]
                   + (if rebuild then [BuildAction] else []), w, succeeds)
      == if rebuild then Next(replaced, ExecuteOne(BuildAction, replaced.world, succeeds)) else replaced
  {
    var tail := if rebuild then [BuildAction] else [];
    var stopped := Stop(w, succeeds);
    if w.process.Some? {
      assert [StopAction] + [StartAction(built)] + tail == [StopAction] + ([StartAction(built)] + tail);
      ExecuteFirst(StopAction, [StartAction(built)] + tail, w, succeeds);
    } else {
      assert [] + [StartAction(built)] + tail == [StartAction(built)] + tail;
    }
    ExecuteFirst(StartAction(built), tail, stopped.world, succeeds);
    var started := Start(stopped.world, built, succeeds);
    if rebuild { ExecuteOneAction(BuildAction, started.world, succeeds); }
  }

  lemma SuccessIsAnswered(w: World, built: BuiltApplication, succeeds: nat -> bool)
    requires Agrees(w) && w.building
    ensures Performed(w, Answer(w, BuildFinished(Some(built))), succeeds,
                      Round(w, BuildFinished(Some(built)), succeeds))
  {
    var ended := Ended(w, Some(built)).(building := false);
    var replaced := ended.(state := HandleBuildSucceeded(w.state, built).state);
    var rebuild := Waiting(w.trace);
    var rest := StopIfRunning(w.process) + [Started(built)] + BuildIfWaiting(w.trace);
    EndPerforms(w, built, succeeds);
    BuildSuccessReplaces(w, built, succeeds);
    ReplaceThenBuild(replaced, built, rebuild, succeeds);
    ThenPerformed(w, [BuildEnded(Some(built))], Executed(replaced, Continue), rest,
                  Round(w, BuildFinished(Some(built)), succeeds), succeeds);
    assert [BuildEnded(Some(built))] + StopIfRunning(w.process) + [Started(built)] + BuildIfWaiting(w.trace)
        == [BuildEnded(Some(built))] + rest;
  }

  lemma FailureIsAnswered(w: World, succeeds: nat -> bool)
    requires Agrees(w) && w.building
    ensures Performed(w, Answer(w, BuildFinished(None)), succeeds, Round(w, BuildFinished(None), succeeds))
  {
    var ended := Ended(w, None);
    var cancelled := CancelBuild(ended, succeeds);
    NotePerforms(w, BuildEnded(None), succeeds);
    CancelPerforms(ended, succeeds);
    ThenPerformed(w, [BuildEnded(None)], Executed(ended, Continue), [BuildCancelled], cancelled, succeeds);
    assert [BuildEnded(None)] + [BuildCancelled] == [BuildEnded(None), BuildCancelled];
    if Waiting(w.trace) {
      var again := cancelled.world.(state := HandleBuildFailed(w.state).state);
      ExecuteOneAction(BuildAction, again, succeeds);
      if cancelled.outcome.Continue? { BuildPerforms(again, succeeds); }
      ThenPerformed(w, [BuildEnded(None), BuildCancelled], Executed(again, cancelled.outcome), [BuildBegun],
                    ExecuteOne(BuildAction, again, succeeds), succeeds);
    } else {
      assert [BuildEnded(None), BuildCancelled] + [] == [BuildEnded(None), BuildCancelled];
    }
  }

  // ----- shutdown -----

  /** The build is cancelled and the application stopped. */
  lemma ClosingPerforms(w: World, succeeds: nat -> bool) returns (quiet: World, closed: Executed)
    ensures quiet == CancelBuild(w, succeeds).world.(state := HandleShutdown(w.state).state)
    ensures closed == Next(Executed(quiet, CancelBuild(w, succeeds).outcome), Stop(quiet, succeeds))
    ensures Performed(w, (if w.building then [BuildCancelled] else []) + StopIfRunning(w.process), succeeds, closed)
  {
    var cancel := if w.building then [BuildCancelled] else [];
    quiet := CancelBuild(w, succeeds).world.(state := HandleShutdown(w.state).state);
    closed := Next(Executed(quiet, CancelBuild(w, succeeds).outcome), Stop(quiet, succeeds));
    CancelPerforms(w, succeeds);
    StopPerforms(quiet, succeeds);
    ThenPerformed(w, cancel, Executed(quiet, CancelBuild(w, succeeds).outcome),
                  StopIfRunning(w.process), Stop(quiet, succeeds), succeeds);
  }

  /** Exiting is one more entry, and no call. */
  lemma ExitIsAnswered(w: World, entries: seq<Entry>, closed: Executed, succeeds: nat -> bool, e: Executed)
    requires Performed(w, entries, succeeds, closed)
    requires entries + [Exited] == Answer(w, ShutdownSignal)
    requires e == Next(closed, ExecuteOne(ExitAction, closed.world, succeeds))
    ensures IsAnswered(w, ShutdownSignal, succeeds, e)
  {
    OneMore(w.process, w.building, entries, Exited);
    if closed.outcome.Continue? {
      assert w.trace + entries + [Exited] == w.trace + (entries + [Exited]);
    } else {
      var m: nat :| FailsFirst(w.calls, CallsIn(entries), succeeds, m) && e.world.calls == m + 1;
    }
  }

  /** After a cancellation that works, the rest of the round runs through. */
  lemma RoundCloses(w: World, succeeds: nat -> bool, quiet: World, closed: Executed)
    requires Agrees(w)
    requires quiet == CancelBuild(w, succeeds).world.(state := HandleShutdown(w.state).state)
    requires closed == Next(Executed(quiet, CancelBuild(w, succeeds).outcome), Stop(quiet, succeeds))
    ensures if CancelBuild(w, succeeds).outcome.Continue?
            then Round(w, ShutdownSignal, succeeds) == Next(closed, ExecuteOne(ExitAction, closed.world, succeeds))
            else Round(w, ShutdownSignal, succeeds) == CancelBuild(w, succeeds)
  {
    if CancelBuild(w, succeeds).outcome.Continue? {
      ShutdownLeaves(w, succeeds);
      assert quiet.process == w.process;
      ExecuteLeave(quiet, succeeds);
    }
  }

  lemma ShutdownIsAnswered(w: World, succeeds: nat -> bool)
    requires Agrees(w)
    ensures IsAnswered(w, ShutdownSignal, succeeds, Round(w, ShutdownSignal, succeeds))
  {
    var quiet, closed := ClosingPerforms(w, succeeds);
    RoundCloses(w, succeeds, quiet, closed);
    var entries := (if w.building then [BuildCancelled] else []) + StopIfRunning(w.process);
    var exited := Next(closed, ExecuteOne(ExitAction, closed.world, succeeds));
    ExitIsAnswered(w, entries, closed, succeeds, exited);
    if !CancelBuild(w, succeeds).outcome.Continue? {
      SameFailure(w, exited, Round(w, ShutdownSignal, succeeds), succeeds);
    }
  }

  /** The state of a loop that has failed is not part of its answer. */
  lemma SameFailure(w: World, e: Executed, f: Executed, succeeds: nat -> bool)
    requires IsAnswered(w, ShutdownSignal, succeeds, e) && e.outcome.Fails?
    requires e.outcome == f.outcome && e.world.calls == f.world.calls
    ensures IsAnswered(w, ShutdownSignal, succeeds, f)
  {}

  lemma ExecuteLeave(w: World, succeeds: nat -> bool)
    ensures ExecuteAll((if w.process.Some? then [StopAction] else []) + [ExitAction], w, succeeds)
         == Next(Stop(w, succeeds), ExecuteOne(ExitAction, Stop(w, succeeds).world, succeeds))
  {
    var stopped := Stop(w, succeeds);
    ExecuteOneAction(ExitAction, stopped.world, succeeds);
    if w.process.Some? {
      ExecuteFirst(StopAction, [ExitAction], w, succeeds);
    } else {
      assert [] + [ExitAction] == [ExitAction];
    }
  }

  // ----- every event -----

  lemma PerformedIsAnswered(w: World, event: LoopEvent, succeeds: nat -> bool, e: Executed)
    requires !IsBroken(w, event) && !event.ShutdownSignal? && !event.Tick?
    requires Performed(w, Answer(w, event), succeeds, e)
    ensures IsAnswered(w, event, succeeds, e)
  {}

  lemma RoundIsAnswered(w: World, event: LoopEvent, succeeds: nat -> bool)
    requires Agrees(w)
    ensures IsAnswered(w, event, succeeds, Round(w, event, succeeds))
  {
    NothingPerformed(w, succeeds);
    match event
    case ShutdownSignal => ShutdownIsAnswered(w, succeeds);
    case ChangeReceived(None) =>
    case ChangeReceived(Some(impact)) =>
      if impact.RebuildImpact? { RebuildIsAnswered(w, succeeds); }
      if impact.RestartImpact? { RestartIsAnswered(w, succeeds); }
      PerformedIsAnswered(w, event, succeeds, Round(w, event, succeeds));
    case BuildFinished(result) =>
      if w.building {
        if result.Some? { SuccessIsAnswered(w, result.value, succeeds); } else { FailureIsAnswered(w, succeeds); }
      }
      PerformedIsAnswered(w, event, succeeds, Round(w, event, succeeds));
    case Tick(_) =>
  }

  /** The loop begins with a build and nothing else. */
  lemma FirstBuildBegins(succeeds: nat -> bool)
    ensures var r := RunLoop([], succeeds);
      r.status.Running? && r.world.trace == [BuildBegun] && r.world.building && r.world.process.None?
      && r.world.calls == 0
  {
    ExecuteOneAction(BuildAction, INITIAL_WORLD.(state := INITIAL.(buildRunning := true)), succeeds);
  }

  /** In every run, each event is answered in full, in order, while the calls that the
    * answer needs succeed; and the loop ends with an error exactly if one of them
    * fails, or the watcher or the poll does.
    */
  lemma EveryEventIsAnswered(events: seq<LoopEvent>, event: LoopEvent, succeeds: nat -> bool)
    requires RunLoop(events, succeeds).status.Running?
    ensures var w := RunLoop(events, succeeds).world; var r := RunLoop(events + [event], succeeds);
      if IsBroken(w, event) || !CallsSucceed(w.calls, CallsIn(Answer(w, event)), succeeds)
      then r.status == Returned(Failure(
                                  if event.ChangeReceived? && event.change.None? then WatcherFailed
                                  else DriverFailed))
      else Follows(w, event, Answer(w, event), r.world)
           && r.status == if event.ShutdownSignal? then Returned(Success(())) else Running
  {
    EveryRunIsSafe(events, succeeds);
    RoundIsAnswered(RunLoop(events, succeeds).world, event, succeeds);
    assert (events + [event])[..|events|] == events;
  }

  /** A restart change, with no build in flight, replaces what runs by the last
    * successful build.
    */
  lemma RestartReplaces(events: seq<LoopEvent>, built: BuiltApplication, succeeds: nat -> bool)
    requires var r := RunLoop(events, succeeds);
      && r.status.Running? && !r.world.building && LastBuilt(r.world.trace) == Some(built)
      && CallsSucceed(r.world.calls, 2, succeeds)
    ensures var w := RunLoop(events, succeeds).world;
      var r := RunLoop(events + [ChangeReceived(Some(RestartImpact))], succeeds);
      && r.status.Running? && r.world.process == Some(built)
      && r.world.trace == w.trace + (if w.process.Some? then [Stopped] else []) + [Started(built)]
  {
    var w := RunLoop(events, succeeds).world;
    EveryEventIsAnswered(events, ChangeReceived(Some(RestartImpact)), succeeds);
    OneMore(w.process, w.building, StopIfRunning(w.process), Started(built));
    OneEntry(w.process, w.building, Stopped);
    var stop := StopIfRunning(w.process);
    assert w.trace + stop + [Started(built)] == w.trace + (stop + [Started(built)]);
  }

  /** After a failure the build in flight is cancelled first and the application
    * stopped then, whether or not that works.
    */
  lemma FailureCleansUp(events: seq<LoopEvent>, event: LoopEvent, succeeds: nat -> bool)
    requires RunLoop(events, succeeds).status.Running?
    requires Round(RunLoop(events, succeeds).world, event, succeeds).outcome.Fails?
    ensures var w := Round(RunLoop(events, succeeds).world, event, succeeds).world;
      RunLoop(events + [event], succeeds).world.trace
      == w.trace + (if w.building then [BuildCancelled] else []) + StopIfRunning(w.process)
  {
    var w := Round(RunLoop(events, succeeds).world, event, succeeds).world;
    assert (events + [event])[..|events|] == events;
    var cancel := if w.building then [BuildCancelled] else [];
    assert CancelBuild(w, succeeds).world.trace == w.trace + cancel;
    assert Stop(CancelBuild(w, succeeds).world, succeeds).world.trace == w.trace + cancel + StopIfRunning(w.process);
  }
}
