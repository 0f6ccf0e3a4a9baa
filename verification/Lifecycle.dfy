/** Ordered start with rollback, and shutdown in reverse.
  * Models crates/mads-core/src/lifecycle.rs. A hook is known by the sequence
  * number of its registration; whether the `n`-th hook call succeeds is up to
  * an arbitrary `succeeds(n)`.
  */
module Lifecycle {
  import opened Wrappers
  import opened Orders

  datatype Group = Infrastructure(owner: string) | Application

  datatype Hook = Hook(group: Group, sequence: nat)

  datatype LifecycleState = Created | Starting | Running | Stopping | Stopped

  datatype HookCall = StartCall(hook: Hook, ok: bool) | StopCall(hook: Hook, ok: bool)

  datatype Operation = StartOperation | ShutdownOperation

  datatype LifecycleError =
    | InvalidTransition(state: LifecycleState, operation: Operation)
    | StartupFailed(hook: Hook, rollbackFailures: seq<Hook>)
    | ShutdownFailed(hook: Hook)

  datatype Manager = Manager(state: LifecycleState, hooks: seq<Hook>, nextSequence: nat, calls: seq<HookCall>)

  datatype Handled = Handled(manager: Manager, result: Result<(), LifecycleError>)

  /** Infrastructure by owner, then applications; equals by registration. */
  predicate StartsBefore(a: Hook, b: Hook) {
    match (a.group, b.group)
    case (Infrastructure(x), Infrastructure(y)) => if x == y then a.sequence <= b.sequence else StringLe(x, y)
    case (Infrastructure(_), Application) => true
    case (Application, Infrastructure(_)) => false
    case (Application, Application) => a.sequence <= b.sequence
  }

  lemma StartsBeforeIsTotalOrder()
    ensures TotalOrder(StartsBefore)
  {
    StringLeIsTotalOrder();
    forall a, b, c | StartsBefore(a, b) && StartsBefore(b, c) ensures StartsBefore(a, c) {
      if a.group.Infrastructure? && b.group.Infrastructure? && c.group.Infrastructure?
         && a.group.owner != b.group.owner && b.group.owner != c.group.owner {
        var x, y, z := a.group.owner, b.group.owner, c.group.owner;
        assert StringLe(x, z);
        assert x == z ==> x == y;
      }
    }
  }

  // ----- specification -----

  function Register(m: Manager, group: Group): Manager {
    m.(hooks := m.hooks + [Hook(group, m.nextSequence)], nextSequence := m.nextSequence + 1)
  }

  datatype Started = Started(calls: seq<HookCall>, failed: Option<nat>)

  /** Starts hooks from index `k` on, up to the first that fails. */
  function StartFrom(hooks: seq<Hook>, k: nat, calls: seq<HookCall>, succeeds: nat -> bool): (r: Started)
    requires k <= |hooks|
    ensures r.failed.Some? ==> k <= r.failed.value < |hooks|
    decreases |hooks| - k
  {
    if k == |hooks| then Started(calls, None)
    else if succeeds(|calls|) then StartFrom(hooks, k + 1, calls + [StartCall(hooks[k], true)], succeeds)
    else Started(calls + [StartCall(hooks[k], false)], Some(k))
  }

  datatype StopResult = StopResult(calls: seq<HookCall>, failures: seq<Hook>)

  /** Stops hooks `k - 1` down to `0`, going on after failures. */
  function StopBelow(hooks: seq<Hook>, k: nat, calls: seq<HookCall>, succeeds: nat -> bool): StopResult
    requires k <= |hooks|
  {
    if k == 0 then StopResult(calls, [])
    else
      var ok := succeeds(|calls|);
      var rest := StopBelow(hooks, k - 1, calls + [StopCall(hooks[k - 1], ok)], succeeds);
      StopResult(rest.calls, (if ok then [] else [hooks[k - 1]]) + rest.failures)
  }

  function StartManager(m: Manager, succeeds: nat -> bool): Handled {
    if m.state != Created then Handled(m, Failure(InvalidTransition(m.state, StartOperation)))
    else
      var hooks := Sort(StartsBefore, m.hooks);
      var started := StartFrom(hooks, 0, m.calls, succeeds);
      if started.failed.None? then Handled(m.(state := Running, hooks := hooks, calls := started.calls), Success(()))
      else
        var rolledBack := StopBelow(hooks, started.failed.value, started.calls, succeeds);
        Handled(m.(state := Stopped, hooks := hooks, calls := rolledBack.calls),
                Failure(StartupFailed(hooks[started.failed.value], rolledBack.failures)))
  }

  function ShutdownManager(m: Manager, succeeds: nat -> bool): Handled {
    if m.state != Running then Handled(m, Failure(InvalidTransition(m.state, ShutdownOperation)))
    else
      var stopped := StopBelow(m.hooks, |m.hooks|, m.calls, succeeds);
      Handled(m.(state := Stopped, calls := stopped.calls),
              if stopped.failures == [] then Success(()) else Failure(ShutdownFailed(stopped.failures[0])))
  }

  function Handle(m: Manager, operation: Operation, succeeds: nat -> bool): Handled {
    match operation
    case StartOperation => StartManager(m, succeeds)
    case ShutdownOperation => ShutdownManager(m, succeeds)
  }

  function HandleAll(m: Manager, operations: seq<Operation>, succeeds: nat -> bool): Manager
    decreases |operations|
  {
    if operations == [] then m
    else HandleAll(Handle(m, operations[0], succeeds).manager, operations[1..], succeeds)
  }

  function Later(failures: seq<Hook>, rest: StopResult): StopResult {
    StopResult(rest.calls, failures + rest.failures)
  }

  lemma LaterStep(failures: seq<Hook>, hooks: seq<Hook>, k: nat, calls: seq<HookCall>, succeeds: nat -> bool)
    requires 0 < k <= |hooks|
    ensures var ok := succeeds(|calls|);
      Later(failures, StopBelow(hooks, k, calls, succeeds))
      == Later(if ok then failures else failures + [hooks[k - 1]],
               StopBelow(hooks, k - 1, calls + [StopCall(hooks[k - 1], ok)], succeeds))
  {}

  // ----- the manager as a mutable object -----

  class LifecycleManager {
    var state: LifecycleState
    var hooks: seq<Hook>
    var nextSequence: nat
    ghost var calls: seq<HookCall>
    var called: nat

    ghost predicate Valid()
      reads this
    {
      called == |calls|
    }

    ghost function View(): Manager
      reads this
    {
      Manager(state, hooks, nextSequence, calls)
    }

    constructor ()
      ensures Valid() && View() == NEW_MANAGER
    {
      state, hooks, nextSequence, calls, called := Created, [], 0, [], 0;
    }

    method AddHook()
      requires Valid()
      modifies this
      ensures Valid() && View() == Register(old(View()), Application)
    {
      hooks := hooks + [Hook(Application, nextSequence)];
      nextSequence := nextSequence + 1;
    }

    method AddInfrastructureHook(owner: string)
      requires Valid()
      modifies this
      ensures Valid() && View() == Register(old(View()), Infrastructure(owner))
    {
      hooks := hooks + [Hook(Infrastructure(owner), nextSequence)];
      nextSequence := nextSequence + 1;
    }

    method CallStart(hook: Hook, succeeds: nat -> bool) returns (ok: bool)
      requires Valid()
      modifies `calls, `called
      ensures Valid() && ok == succeeds(|old(calls)|) && calls == old(calls) + [StartCall(hook, ok)]
    {
      ok := succeeds(called);
      called := called + 1;
      calls := calls + [StartCall(hook, ok)];
    }

    method CallStop(hook: Hook, succeeds: nat -> bool) returns (ok: bool)
      requires Valid()
      modifies `calls, `called
      ensures Valid() && ok == succeeds(|old(calls)|) && calls == old(calls) + [StopCall(hook, ok)]
    {
      ok := succeeds(called);
      called := called + 1;
      calls := calls + [StopCall(hook, ok)];
    }

    /** Stops hooks `k - 1` down to `0` and collects those whose stop failed. */
    method StopInReverse(k: nat, succeeds: nat -> bool) returns (failures: seq<Hook>)
      requires Valid() && k <= |hooks|
      modifies `calls, `called
      ensures Valid() && StopResult(calls, failures) == StopBelow(hooks, k, old(calls), succeeds)
    {
      failures := [];
      assert [] + StopBelow(hooks, k, calls, succeeds).failures == StopBelow(hooks, k, calls, succeeds).failures;
      var i: nat := k;
      while i > 0
        invariant i <= k && Valid()
        invariant StopBelow(hooks, k, old(calls), succeeds) == Later(failures, StopBelow(hooks, i, calls, succeeds))
      {
        ghost var earlier, before := failures, calls;
        var ok := CallStop(hooks[i - 1], succeeds);
        if !ok {
          failures := failures + [hooks[i - 1]];
        }
        LaterStep(earlier, hooks, i, before, succeeds);
        i := i - 1;
      }
    }

    /** Calls hook starts in order; the index of the first that fails. */
    method StartInOrder(succeeds: nat -> bool) returns (failed: Option<nat>)
      requires Valid()
      modifies `calls, `called
      ensures Valid() && Started(calls, failed) == StartFrom(hooks, 0, old(calls), succeeds)
    {
      for index := 0 to |hooks|
        invariant Valid()
        invariant StartFrom(hooks, index, calls, succeeds) == StartFrom(hooks, 0, old(calls), succeeds)
      {
        var ok := CallStart(hooks[index], succeeds);
        if !ok {
          return Some(index);
        }
      }
      return None;
    }

    method Start(succeeds: nat -> bool) returns (r: Result<(), LifecycleError>)
      requires Valid()
      modifies this
      ensures Valid() && Handled(View(), r) == StartManager(old(View()), succeeds)
    {
      if state != Created {
        return Failure(InvalidTransition(state, StartOperation));
      }
      state := Starting;
      hooks := Sort(StartsBefore, hooks);
      var failed := StartInOrder(succeeds);
      if failed.Some? {
        var failures := StopInReverse(failed.value, succeeds);
        state := Stopped;
        return Failure(StartupFailed(hooks[failed.value], failures));
      }
      state := Running;
      return Success(());
    }

    method Shutdown(succeeds: nat -> bool) returns (r: Result<(), LifecycleError>)
      requires Valid()
      modifies this
      ensures Valid() && Handled(View(), r) == ShutdownManager(old(View()), succeeds)
    {
      if state != Running {
        return Failure(InvalidTransition(state, ShutdownOperation));
      }
      state := Stopping;
      var failures := StopInReverse(|hooks|, succeeds);
      state := Stopped;
      return if failures == [] then Success(()) else Failure(ShutdownFailed(failures[0]));
    }
  }

  // ----- what is called, in closed form -----

  function Starts(hooks: seq<Hook>, k: nat): seq<HookCall>
    requires k <= |hooks|
  {
    seq(k, i requires 0 <= i < k => StartCall(hooks[i], true))
  }

  /** `stops` calls hooks `k - 1` down to `0`, with any outcomes. */
  ghost predicate AreStops(stops: seq<HookCall>, hooks: seq<Hook>, k: nat)
    requires k <= |hooks|
  {
    |stops| == k && forall i :: 0 <= i < k ==> stops[i] == StopCall(hooks[k - 1 - i], stops[i].ok)
  }

  /** `failures` are the hooks whose stop failed, in the order of the calls. */
  ghost predicate AreFailures(failures: seq<Hook>, stops: seq<HookCall>) {
    if stops == [] then failures == []
    else if stops[0].ok then AreFailures(failures, stops[1..])
    else failures != [] && failures[0] == stops[0].hook && AreFailures(failures[1..], stops[1..])
  }

  lemma {:induction false} StartFromCalls(hooks: seq<Hook>, k: nat, calls: seq<HookCall>, succeeds: nat -> bool)
    requires k <= |hooks| && calls == Starts(hooks, k)
    ensures var r := StartFrom(hooks, k, calls, succeeds);
      if r.failed.None? then r.calls == Starts(hooks, |hooks|)
      else r.calls == Starts(hooks, r.failed.value) + [StartCall(hooks[r.failed.value], false)]
    decreases |hooks| - k
  {
    if k < |hooks| && succeeds(|calls|) {
      assert calls + [StartCall(hooks[k], true)] == Starts(hooks, k + 1);
      StartFromCalls(hooks, k + 1, Starts(hooks, k + 1), succeeds);
    }
  }

  lemma {:induction false} StopBelowCalls(hooks: seq<Hook>, k: nat, calls: seq<HookCall>, succeeds: nat -> bool)
    returns (stops: seq<HookCall>)
    requires k <= |hooks|
    ensures StopBelow(hooks, k, calls, succeeds).calls == calls + stops
    ensures AreStops(stops, hooks, k) && AreFailures(StopBelow(hooks, k, calls, succeeds).failures, stops)
  {
    if k == 0 {
      stops := [];
    } else {
      var call := StopCall(hooks[k - 1], succeeds(|calls|));
      var rest := StopBelowCalls(hooks, k - 1, calls + [call], succeeds);
      stops := [call] + rest;
      assert calls + [call] + rest == calls + stops;
      assert stops[1..] == rest;
      var failures := StopBelow(hooks, k - 1, calls + [call], succeeds).failures;
      if call.ok { assert [] + failures == failures; } else { assert ([hooks[k - 1]] + failures)[1..] == failures; }
    }
  }

  /** Everything hooks have been called for: the first `k` started, perhaps the
    * next one failed to, and then exactly those `k` were stopped in reverse.
    */
  ghost predicate IsFullRun(calls: seq<HookCall>, hooks: seq<Hook>, k: nat, stops: seq<HookCall>)
    requires k <= |hooks|
  {
    AreStops(stops, hooks, k)
    && calls == Starts(hooks, k) + (if k < |hooks| then [StartCall(hooks[k], false)] else []) + stops
  }

  ghost predicate Registered(m: Manager) {
    && Distinct(m.hooks)
    && forall h :: h in m.hooks ==> h.sequence < m.nextSequence
  }

  /** What holds of a manager before and after any operation. */
  ghost predicate Lawful(m: Manager) {
    && Registered(m)
    && match m.state
       case Created => m.calls == []
       case Running => Sorted(StartsBefore, m.hooks) && m.calls == Starts(m.hooks, |m.hooks|)
       case Stopped =>
         Sorted(StartsBefore, m.hooks)
         && exists k, stops :: 0 <= k <= |m.hooks| && IsFullRun(m.calls, m.hooks, k, stops)
       case _ => false
  }

  lemma RegisterKeeps(m: Manager, group: Group)
    requires Lawful(m) && m.state == Created
    ensures Lawful(Register(m, group)) && Register(m, group).state == Created
  {}

  const NEW_MANAGER := Manager(Created, [], 0, [])

  /** A new manager with hooks of these groups, registered in this order. */
  function RegisterAll(groups: seq<Group>): Manager {
    if groups == [] then NEW_MANAGER else Register(RegisterAll(groups[..|groups| - 1]), groups[|groups| - 1])
  }

  /** Whatever is registered with a new manager, it is lawful, and its hooks are numbered as they came. */
  lemma {:induction false} RegistrationsAreLawful(groups: seq<Group>)
    ensures var m := RegisterAll(groups);
      Lawful(m) && m.state == Created && m.nextSequence == |groups| == |m.hooks|
      && forall i :: 0 <= i < |groups| ==> m.hooks[i] == Hook(groups[i], i)
  {
    if groups != [] {
      RegistrationsAreLawful(groups[..|groups| - 1]);
      RegisterKeeps(RegisterAll(groups[..|groups| - 1]), groups[|groups| - 1]);
    }
  }

  /** The hook named in the error failed to start; those before it were stopped. */
  ghost predicate RolledBack(m: Manager, error: LifecycleError, stops: seq<HookCall>)
    requires error.StartupFailed?
  {
    AreFailures(error.rollbackFailures, stops)
    && exists k :: 0 <= k < |m.hooks| && error.hook == m.hooks[k] && IsFullRun(m.calls, m.hooks, k, stops)
  }

  /** A start calls the hooks in order; when hook `k` fails, exactly the hooks
    * before it are stopped in reverse, whichever of those stops fail.
    */
  lemma StartIsLawful(m: Manager, succeeds: nat -> bool) returns (stops: seq<HookCall>)
    requires Lawful(m) && m.state == Created
    ensures var r := StartManager(m, succeeds);
      && Lawful(r.manager)
      && multiset(r.manager.hooks) == multiset(m.hooks)
      && (r.result.Success? <==> r.manager.state == Running)
      && (r.result.Failure? ==> r.result.error.StartupFailed? && RolledBack(r.manager, r.result.error, stops))
  {
    stops := [];
    StartsBeforeIsTotalOrder();
    var hooks := Sort(StartsBefore, m.hooks);
    SortIsSorted(StartsBefore, m.hooks);
    DistinctPermutation(m.hooks, hooks);
    SameElements(m.hooks, hooks);
    StartFromCalls(hooks, 0, [], succeeds);
    var started := StartFrom(hooks, 0, [], succeeds);
    if started.failed.Some? {
      stops := StopBelowCalls(hooks, started.failed.value, started.calls, succeeds);
      assert IsFullRun(started.calls + stops, hooks, started.failed.value, stops);
    }
  }

  /** A shutdown stops every hook in reverse and reports the first failure. */
  lemma ShutdownIsLawful(m: Manager, succeeds: nat -> bool) returns (stops: seq<HookCall>)
    requires Lawful(m) && m.state == Running
    ensures var r := ShutdownManager(m, succeeds);
      && Lawful(r.manager) && r.manager.state == Stopped
      && IsFullRun(r.manager.calls, m.hooks, |m.hooks|, stops)
      && (r.result.Success? <==> forall i :: 0 <= i < |stops| ==> stops[i].ok)
      && (r.result.Failure? ==> r.result.error.ShutdownFailed? && FailsFirst(stops, r.result.error.hook))
  {
    stops := StopBelowCalls(m.hooks, |m.hooks|, m.calls, succeeds);
    assert m.calls + [] + stops == m.calls + stops;
    assert IsFullRun(m.calls + stops, m.hooks, |m.hooks|, stops);
    FailuresMean(StopBelow(m.hooks, |m.hooks|, m.calls, succeeds).failures, stops);
  }

  ghost predicate FailsFirst(stops: seq<HookCall>, hook: Hook) {
    exists i :: 0 <= i < |stops| && !stops[i].ok && stops[i].hook == hook && forall j :: 0 <= j < i ==> stops[j].ok
  }

  lemma {:induction false} FailuresMean(failures: seq<Hook>, stops: seq<HookCall>)
    requires AreFailures(failures, stops)
    ensures failures == [] <==> forall i :: 0 <= i < |stops| ==> stops[i].ok
    ensures failures != [] ==> FailsFirst(stops, failures[0])
    decreases |stops|
  {
    if stops != [] && stops[0].ok {
      var rest := stops[1..];
      FailuresMean(failures, rest);
      assert forall i :: 0 < i < |stops| ==> stops[i] == rest[i - 1];
      if failures != [] {
        var i :| 0 <= i < |rest| && !rest[i].ok && rest[i].hook == failures[0] && forall j :: 0 <= j < i ==> rest[j].ok;
        assert !stops[i + 1].ok && stops[i + 1].hook == failures[0];
      }
    }
  }

  /** Once stopped, always stopped: no operation calls a hook again. */
  lemma {:induction false} StoppedIsTerminal(m: Manager, operations: seq<Operation>, succeeds: nat -> bool)
    requires m.state == Stopped
    ensures HandleAll(m, operations, succeeds) == m
    ensures forall op :: Handle(m, op, succeeds).result == Failure(InvalidTransition(Stopped, op))
    decreases |operations|
  {
    if operations != [] { StoppedIsTerminal(m, operations[1..], succeeds); }
  }

  lemma {:induction false} EveryRunIsLawful(m: Manager, operations: seq<Operation>, succeeds: nat -> bool)
    requires Lawful(m)
    ensures Lawful(HandleAll(m, operations, succeeds))
    decreases |operations|
  {
    if operations != [] {
      if m.state == Created && operations[0].StartOperation? {
        var _ := StartIsLawful(m, succeeds);
      } else if m.state == Running && operations[0].ShutdownOperation? {
        var _ := ShutdownIsLawful(m, succeeds);
      }
      EveryRunIsLawful(Handle(m, operations[0], succeeds).manager, operations[1..], succeeds);
    }
  }

  // ----- each hook -----

  ghost predicate StartsOnce(calls: seq<HookCall>) {
    forall i, j :: 0 <= i < j < |calls| && calls[i].StartCall? && calls[j].StartCall? ==> calls[i].hook != calls[j].hook
  }

  ghost predicate StopsOnce(calls: seq<HookCall>) {
    forall i, j :: 0 <= i < j < |calls| && calls[i].StopCall? && calls[j].StopCall? ==> calls[i].hook != calls[j].hook
  }

  ghost predicate StopsOnlyStarted(calls: seq<HookCall>) {
    forall j :: 0 <= j < |calls| && calls[j].StopCall? ==>
      exists i :: 0 <= i < j && calls[i] == StartCall(calls[j].hook, true)
  }

  /** Starts and stops per hook: none twice, no stop without a start that succeeded before. */
  ghost predicate HooksAreSafe(calls: seq<HookCall>) {
    StartsOnce(calls) && StopsOnce(calls) && StopsOnlyStarted(calls)
  }

  /** Every hook that started was told to stop afterwards, whether or not it could. */
  ghost predicate StartedAreToldToStop(calls: seq<HookCall>) {
    forall i :: 0 <= i < |calls| && calls[i].StartCall? && calls[i].ok ==>
      exists j :: i < j < |calls| && calls[j].StopCall? && calls[j].hook == calls[i].hook
  }

  /** Where each call of a full run sits. */
  lemma FullRunAt(calls: seq<HookCall>, hooks: seq<Hook>, k: nat, stops: seq<HookCall>, i: nat)
    requires k <= |hooks| && IsFullRun(calls, hooks, k, stops) && i < |calls|
    ensures CallAt(calls, hooks, k, i)
  {}

  ghost predicate CallAt(calls: seq<HookCall>, hooks: seq<Hook>, k: nat, i: nat)
    requires k <= |hooks| && i < |calls|
  {
    var first := k + if k < |hooks| then 1 else 0;
    && |calls| == first + k
    && (i < k ==> calls[i] == StartCall(hooks[i], true))
    && (k <= i < first ==> calls[i] == StartCall(hooks[k], false))
    && (first <= i ==> calls[i].StopCall? && calls[i].hook == hooks[k - 1 - (i - first)])
  }

  lemma FullRunStartsOnce(calls: seq<HookCall>, hooks: seq<Hook>, k: nat)
    requires k <= |hooks| && Distinct(hooks) && forall i: nat :: i < |calls| ==> CallAt(calls, hooks, k, i)
    ensures StartsOnce(calls)
  {
    forall i, j | 0 <= i < j < |calls| && calls[i].StartCall? && calls[j].StartCall?
      ensures calls[i].hook != calls[j].hook
    {
      assert CallAt(calls, hooks, k, i) && CallAt(calls, hooks, k, j);
    }
  }

  lemma FullRunStopsOnce(calls: seq<HookCall>, hooks: seq<Hook>, k: nat)
    requires k <= |hooks| && Distinct(hooks) && forall i: nat :: i < |calls| ==> CallAt(calls, hooks, k, i)
    ensures StopsOnce(calls)
  {
    forall i, j | 0 <= i < j < |calls| && calls[i].StopCall? && calls[j].StopCall?
      ensures calls[i].hook != calls[j].hook
    {
      assert CallAt(calls, hooks, k, i) && CallAt(calls, hooks, k, j);
    }
  }

  lemma FullRunStopsStarted(calls: seq<HookCall>, hooks: seq<Hook>, k: nat)
    requires k <= |hooks| && forall i: nat :: i < |calls| ==> CallAt(calls, hooks, k, i)
    ensures StopsOnlyStarted(calls)
  {
    forall j | 0 <= j < |calls| && calls[j].StopCall?
      ensures exists i :: 0 <= i < j && calls[i] == StartCall(calls[j].hook, true)
    {
      assert CallAt(calls, hooks, k, j);
      var i := k - 1 - (j - (k + if k < |hooks| then 1 else 0));
      assert CallAt(calls, hooks, k, i);
    }
  }

  lemma FullRunAnswersStarts(calls: seq<HookCall>, hooks: seq<Hook>, k: nat)
    requires k <= |hooks| && forall i: nat :: i < |calls| ==> CallAt(calls, hooks, k, i)
    ensures StartedAreToldToStop(calls)
  {
    forall i | 0 <= i < |calls| && calls[i].StartCall? && calls[i].ok
      ensures exists j :: i < j < |calls| && calls[j].StopCall? && calls[j].hook == calls[i].hook
    {
      assert CallAt(calls, hooks, k, i);
      var j := k + (if k < |hooks| then 1 else 0) + (k - 1 - i);
      assert CallAt(calls, hooks, k, j);
    }
  }

  lemma FullRunIsSafe(calls: seq<HookCall>, hooks: seq<Hook>, k: nat, stops: seq<HookCall>)
    requires k <= |hooks| && IsFullRun(calls, hooks, k, stops) && Distinct(hooks)
    ensures HooksAreSafe(calls) && StartedAreToldToStop(calls)
  {
    forall i: nat | i < |calls| ensures CallAt(calls, hooks, k, i) {
      FullRunAt(calls, hooks, k, stops, i);
    }
    FullRunStartsOnce(calls, hooks, k);
    FullRunStopsOnce(calls, hooks, k);
    FullRunStopsStarted(calls, hooks, k);
    FullRunAnswersStarts(calls, hooks, k);
  }

  /** Over every sequence of operations on a manager with any registered hooks: no
    * hook is started twice, stopped twice, or stopped without having started;
    * and once the manager has stopped, every hook that started was told to stop.
    */
  lemma EveryHookIsSafe(m: Manager, operations: seq<Operation>, succeeds: nat -> bool)
    requires Lawful(m)
    ensures var after := HandleAll(m, operations, succeeds);
      HooksAreSafe(after.calls) && (after.state == Stopped ==> StartedAreToldToStop(after.calls))
  {
    EveryRunIsLawful(m, operations, succeeds);
    var after := HandleAll(m, operations, succeeds);
    if after.state == Stopped {
      var k, stops :| 0 <= k <= |after.hooks| && IsFullRun(after.calls, after.hooks, k, stops);
      FullRunIsSafe(after.calls, after.hooks, k, stops);
    }
  }

  /** So for every list of hooks registered with a new manager and every sequence of operations. */
  lemma EveryManagerIsSafe(groups: seq<Group>, operations: seq<Operation>, succeeds: nat -> bool)
    ensures var after := HandleAll(RegisterAll(groups), operations, succeeds);
      Lawful(after) && HooksAreSafe(after.calls) && (after.state == Stopped ==> StartedAreToldToStop(after.calls))
  {
    RegistrationsAreLawful(groups);
    EveryRunIsLawful(RegisterAll(groups), operations, succeeds);
    EveryHookIsSafe(RegisterAll(groups), operations, succeeds);
  }

  // ----- the order of the calls -----

  /** Infrastructure comes before applications, by owner; and of two hooks of one
    * owner, or two of applications, the one registered first.
    */
  ghost predicate Precedes(a: Hook, b: Hook) {
    && (a.group.Application? ==> b.group.Application?)
    && (a.group.Infrastructure? && b.group.Infrastructure? ==> StringLe(a.group.owner, b.group.owner))
    && (a.group == b.group ==> a.sequence < b.sequence)
  }

  ghost predicate HooksInOrder(hooks: seq<Hook>) {
    forall i, j :: 0 <= i < j < |hooks| ==> Precedes(hooks[i], hooks[j])
  }

  /** Starts follow the order, and stops go against it. */
  ghost predicate CallsInOrder(calls: seq<HookCall>) {
    && (forall i, j :: 0 <= i < j < |calls| && calls[i].StartCall? && calls[j].StartCall? ==>
          Precedes(calls[i].hook, calls[j].hook))
    && (forall i, j :: 0 <= i < j < |calls| && calls[i].StopCall? && calls[j].StopCall? ==>
          Precedes(calls[j].hook, calls[i].hook))
  }

  lemma SortedPrecede(hooks: seq<Hook>)
    requires Sorted(StartsBefore, hooks) && Distinct(hooks)
    ensures HooksInOrder(hooks)
  {
    forall i, j | 0 <= i < j < |hooks| ensures Precedes(hooks[i], hooks[j]) {
      BeforePrecedes(hooks[i], hooks[j]);
    }
  }

  lemma BeforePrecedes(a: Hook, b: Hook)
    requires StartsBefore(a, b) && a != b
    ensures Precedes(a, b)
  {
    if a.group.Infrastructure? { StringLeReflexive(a.group.owner); }
  }

  lemma FullRunInOrder(calls: seq<HookCall>, hooks: seq<Hook>, k: nat)
    requires k <= |hooks| && HooksInOrder(hooks) && forall i: nat :: i < |calls| ==> CallAt(calls, hooks, k, i)
    ensures CallsInOrder(calls)
  {
    forall i, j | 0 <= i < j < |calls| && calls[i].StartCall? && calls[j].StartCall?
      ensures Precedes(calls[i].hook, calls[j].hook)
    {
      assert CallAt(calls, hooks, k, i) && CallAt(calls, hooks, k, j);
    }
    forall i, j | 0 <= i < j < |calls| && calls[i].StopCall? && calls[j].StopCall?
      ensures Precedes(calls[j].hook, calls[i].hook)
    {
      assert CallAt(calls, hooks, k, i) && CallAt(calls, hooks, k, j);
    }
  }

  lemma LawfulInOrder(m: Manager)
    requires Lawful(m) && m.state != Created
    ensures HooksInOrder(m.hooks) && CallsInOrder(m.calls)
  {
    SortedPrecede(m.hooks);
    if m.state == Stopped {
      var k, stops :| 0 <= k <= |m.hooks| && IsFullRun(m.calls, m.hooks, k, stops);
      forall i: nat | i < |m.calls| ensures CallAt(m.calls, m.hooks, k, i) {
        FullRunAt(m.calls, m.hooks, k, stops, i);
      }
      FullRunInOrder(m.calls, m.hooks, k);
    }
  }

  /** The outcome recorded of each call is the one it had. */
  ghost predicate CallsAreTrue(calls: seq<HookCall>, succeeds: nat -> bool) {
    forall i :: 0 <= i < |calls| ==> calls[i].ok == succeeds(i)
  }

  lemma {:induction false} StartsAreTrue(hooks: seq<Hook>, k: nat, calls: seq<HookCall>, succeeds: nat -> bool)
    requires k <= |hooks| && CallsAreTrue(calls, succeeds)
    ensures CallsAreTrue(StartFrom(hooks, k, calls, succeeds).calls, succeeds)
    decreases |hooks| - k
  {
    if k < |hooks| && succeeds(|calls|) {
      StartsAreTrue(hooks, k + 1, calls + [StartCall(hooks[k], true)], succeeds);
    }
  }

  lemma {:induction false} StopsAreTrue(hooks: seq<Hook>, k: nat, calls: seq<HookCall>, succeeds: nat -> bool)
    requires k <= |hooks| && CallsAreTrue(calls, succeeds)
    ensures CallsAreTrue(StopBelow(hooks, k, calls, succeeds).calls, succeeds)
  {
    if k > 0 { StopsAreTrue(hooks, k - 1, calls + [StopCall(hooks[k - 1], succeeds(|calls|))], succeeds); }
  }

  lemma {:induction false} EveryCallIsTrue(m: Manager, operations: seq<Operation>, succeeds: nat -> bool)
    requires CallsAreTrue(m.calls, succeeds)
    ensures CallsAreTrue(HandleAll(m, operations, succeeds).calls, succeeds)
    ensures multiset(HandleAll(m, operations, succeeds).hooks) == multiset(m.hooks)
    decreases |operations|
  {
    if operations != [] {
      if m.state == Created && operations[0].StartOperation? {
        var hooks := Sort(StartsBefore, m.hooks);
        StartsAreTrue(hooks, 0, m.calls, succeeds);
        var started := StartFrom(hooks, 0, m.calls, succeeds);
        if started.failed.Some? { StopsAreTrue(hooks, started.failed.value, started.calls, succeeds); }
      } else if m.state == Running && operations[0].ShutdownOperation? {
        StopsAreTrue(m.hooks, |m.hooks|, m.calls, succeeds);
      }
      EveryCallIsTrue(Handle(m, operations[0], succeeds).manager, operations[1..], succeeds);
    }
  }

  /** Whatever hooks are registered and whatever is asked of the manager afterwards:
    * it keeps exactly those hooks; once it was started, their starts follow the
    * order and their stops go against it; and every outcome is reported as it was.
    */
  lemma EveryRunIsOrdered(groups: seq<Group>, operations: seq<Operation>, succeeds: nat -> bool)
    ensures var after := HandleAll(RegisterAll(groups), operations, succeeds);
      && multiset(after.hooks) == multiset(RegisterAll(groups).hooks)
      && (after.state != Created ==> HooksInOrder(after.hooks) && CallsInOrder(after.calls))
      && CallsAreTrue(after.calls, succeeds)
  {
    RegistrationsAreLawful(groups);
    EveryRunIsLawful(RegisterAll(groups), operations, succeeds);
    EveryCallIsTrue(RegisterAll(groups), operations, succeeds);
    var after := HandleAll(RegisterAll(groups), operations, succeeds);
    if after.state != Created { LawfulInOrder(after); }
  }

  /** A start is accepted only by a new manager and a shutdown only by a running one;
    * any other operation is refused by its name and changes nothing. An accepted
    * start gives a running manager if and only if every hook started.
    */
  lemma OperationsFit(m: Manager, operation: Operation, succeeds: nat -> bool)
    requires Lawful(m)
    ensures var fits := if operation.StartOperation? then m.state == Created else m.state == Running;
      var r := Handle(m, operation, succeeds);
      && (!fits ==> r == Handled(m, Failure(InvalidTransition(m.state, operation))))
      && (fits && operation.StartOperation? ==>
            (r.manager.state == Running <==> forall i :: 0 <= i < |m.hooks| ==> succeeds(i))
            && (r.result.Success? <==> r.manager.state == Running) && r.manager.state in {Running, Stopped})
      && (fits && operation.ShutdownOperation? ==> r.manager.state == Stopped)
  {
    if operation.StartOperation? && m.state == Created {
      var stops := StartIsLawful(m, succeeds);
      StartsWork(Sort(StartsBefore, m.hooks), 0, [], succeeds);
      assert |Sort(StartsBefore, m.hooks)| == |multiset(Sort(StartsBefore, m.hooks))| == |m.hooks|;
    }
  }

  lemma {:induction false} StartsWork(hooks: seq<Hook>, k: nat, calls: seq<HookCall>, succeeds: nat -> bool)
    requires k == |calls| <= |hooks|
    ensures StartFrom(hooks, k, calls, succeeds).failed.None? <==> forall i :: k <= i < |hooks| ==> succeeds(i)
    decreases |hooks| - k
  {
    if k < |hooks| && succeeds(k) { StartsWork(hooks, k + 1, calls + [StartCall(hooks[k], true)], succeeds); }
  }
}
