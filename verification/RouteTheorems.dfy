/** When a catalogue is accepted, and what the registrars are then given.
  * Models `ValidatedRouteIter` of crates/mads-common/src/route.rs.
  */
module RouteTheorems {
  import opened Wrappers
  import opened Locations
  import opened Orders
  import opened RoutePaths
  import opened RouteCatalog

  // ----- conditions that do not mention any order of checking -----

  ghost predicate ValidRoute(r: Route) {
    && ValidPath(r.prefix, true) && ValidPath(r.path, false)
    && r.fullPath == CanonicalJoin(r.prefix, r.path)
    && r.location.file != "" && r.location.line != 0 && r.location.column != 0
  }

  function Selected(c: Controller, routes: seq<Route>, selects: Selection): seq<Route> {
    if routes == [] then []
    else (if selects(c, routes[0]) then [routes[0]] else []) + Selected(c, routes[1..], selects)
  }

  function SelectedOf(selects: Selection): Controller -> seq<Route> {
    (c: Controller) => Selected(c, RoutesOf(c), selects)
  }

  /** All selected routes of a catalogue. */
  function SelectedRoutes(controllers: seq<Controller>, selects: Selection): seq<Route> {
    Gather(SelectedOf(selects), controllers)
  }

  /** No two selected routes with one method match the same requests. */
  ghost predicate NoConflicts(routes: seq<Route>) {
    forall i, j :: 0 <= i < j < |routes| && routes[i].method_ == routes[j].method_ ==>
      !SameMatches(routes[i].fullPath, routes[j].fullPath)
  }

  ghost predicate RoutesOk(routes: seq<Route>) {
    (forall r :: r in routes ==> ValidRoute(r)) && NoConflicts(routes)
  }

  function TypeNames(controllers: seq<Controller>): seq<string> {
    Gather((c: Controller) => [c.typeName], controllers)
  }

  function TypeIds(controllers: seq<Controller>): seq<nat> {
    Gather((c: Controller) => [c.typeId], controllers)
  }

  /** There are contracts, each with a name of its own and with routes. */
  ghost predicate ContractsOk(contracts: seq<Contract>) {
    && contracts != []
    && (forall k :: k in contracts ==> k.traitName != "" && k.routes != [])
    && NamedApart(contracts)
  }

  ghost predicate NamedApart(contracts: seq<Contract>) {
    forall i, j :: 0 <= i < j < |contracts| ==> contracts[i].traitName != contracts[j].traitName
  }

  ghost predicate WellDescribed(c: Controller) {
    c.typeName != "" && ContractsOk(c.contracts) && c.registrar.Some?
  }

  ghost predicate ControllersOk(controllers: seq<Controller>) {
    && (forall c :: c in controllers ==> WellDescribed(c))
    && Distinct(TypeNames(controllers)) && Distinct(TypeIds(controllers))
  }

  // ----- routes -----

  /** The check of the full path repeats what prefix, path and join already imply. */
  lemma CheckRouteExactly(r: Route)
    ensures CheckRoute(r).None? <==> ValidRoute(r)
  {
    CheckPathExactly(r.prefix, true);
    CheckPathExactly(r.path, false);
    CheckPathExactly(r.fullPath, false);
    if ValidPath(r.prefix, true) && ValidPath(r.path, false) { JoinIsValid(r.prefix, r.path); }
  }

  function Keys(routes: seq<Route>): (r: seq<Key>)
    ensures |r| == |routes| && forall i :: 0 <= i < |r| ==> r[i] == KeyOf(routes[i])
  {
    seq(|routes|, i requires 0 <= i < |routes| => KeyOf(routes[i]))
  }

  lemma DistinctKeysExactly(routes: seq<Route>)
    ensures Distinct(Keys(routes)) <==> NoConflicts(routes)
  {
    forall i, j | 0 <= i < j < |routes|
      ensures Keys(routes)[i] != Keys(routes)[j] <==>
        (routes[i].method_ == routes[j].method_ ==> !SameMatches(routes[i].fullPath, routes[j].fullPath))
    {
      PatternsDecideMatches(routes[i].fullPath, routes[j].fullPath);
    }
    if NoConflicts(routes) {
      forall i, j | 0 <= i < j < |Keys(routes)| ensures Keys(routes)[i] != Keys(routes)[j] {}
    }
    if Distinct(Keys(routes)) {
      forall i, j | 0 <= i < j < |routes| && routes[i].method_ == routes[j].method_
        ensures !SameMatches(routes[i].fullPath, routes[j].fullPath)
      {
        assert Keys(routes)[i] != Keys(routes)[j];
      }
    }
  }

  ghost predicate Fresh(keys: seq<Key>, seen: set<Key>) {
    Distinct(keys) && forall k :: k in keys ==> k !in seen
  }

  ghost predicate AllValid(routes: seq<Route>) {
    forall r :: r in routes ==> ValidRoute(r)
  }

  lemma KeysCons(r: Route, rest: seq<Route>)
    ensures Keys([r] + rest) == [KeyOf(r)] + Keys(rest)
  {}

  lemma KeysConcat(a: seq<Route>, b: seq<Route>)
    ensures Keys(a + b) == Keys(a) + Keys(b)
  {}

  lemma FreshCons(k: Key, rest: seq<Key>, seen: set<Key>)
    ensures Fresh([k] + rest, seen) <==> k !in seen && Fresh(rest, seen + {k})
  {
    DistinctSplit([k] + rest);
    assert ([k] + rest)[1..] == rest;
  }

  lemma AllValidCons(r: Route, rest: seq<Route>)
    ensures AllValid([r] + rest) <==> ValidRoute(r) && AllValid(rest)
  {
    assert forall x :: x in [r] + rest <==> x == r || x in rest;
  }

  /** The selected routes are valid and clash neither with each other nor with
    * what was seen before, exactly when they pass; what is handed over then.
    */
  ghost predicate TakenExactly(c: Controller, routes: seq<Route>, selects: Selection, p: Progress) {
    var selected := Selected(c, routes, selects);
    var r := TakeRoutes(c, routes, selects, p);
    && (r.Success? <==> AllValid(selected) && Fresh(Keys(selected), p.seen.Keys))
    && (r.Success? ==> r.value.seen.Keys == p.seen.Keys + set k | k in Keys(selected))
    && (r.Success? ==> r.value.routes == p.routes + Handed(c, routes, selects))
  }

  function AfterFirst(c: Controller, routes: seq<Route>, selects: Selection, p: Progress): Progress
    requires routes != []
  {
    Progress(if selects(c, routes[0]) then p.seen[KeyOf(routes[0]) := Seen(c.typeName, routes[0])] else p.seen,
             p.routes + [Validated(routes[0], selects(c, routes[0]))])
  }

  lemma TakeUnselected(c: Controller, routes: seq<Route>, selects: Selection, p: Progress)
    requires routes != [] && !selects(c, routes[0])
    requires TakenExactly(c, routes[1..], selects, AfterFirst(c, routes, selects, p))
    ensures TakenExactly(c, routes, selects, p)
  {
    HandedCons(c, routes, selects, p.routes);
    assert Selected(c, routes, selects) == Selected(c, routes[1..], selects);
  }

  lemma TakeSelected(c: Controller, routes: seq<Route>, selects: Selection, p: Progress)
    requires routes != [] && selects(c, routes[0])
    requires TakenExactly(c, routes[1..], selects, AfterFirst(c, routes, selects, p))
    ensures TakenExactly(c, routes, selects, p)
  {
    HandedCons(c, routes, selects, p.routes);
    SelectedFirst(routes[0], Selected(c, routes[1..], selects), p.seen.Keys);
    SeenSplit(Keys(Selected(c, routes, selects)), p.seen.Keys);
  }

  lemma {:induction false} TakeRoutesExactly(c: Controller, routes: seq<Route>, selects: Selection, p: Progress)
    ensures TakenExactly(c, routes, selects, p)
    decreases |routes|
  {
    if routes == [] {
      assert p.routes + [] == p.routes;
    } else {
      TakeRoutesExactly(c, routes[1..], selects, AfterFirst(c, routes, selects, p));
      if selects(c, routes[0]) {
        TakeSelected(c, routes, selects, p);
      } else {
        TakeUnselected(c, routes, selects, p);
      }
    }
  }

  lemma HandedCons(c: Controller, routes: seq<Route>, selects: Selection, before: seq<ValidatedRoute>)
    requires routes != []
    ensures before + [Validated(routes[0], selects(c, routes[0]))] + Handed(c, routes[1..], selects)
         == before + Handed(c, routes, selects)
  {}

  lemma SelectedFirst(r: Route, later: seq<Route>, seen: set<Key>)
    ensures Keys([r] + later) == [KeyOf(r)] + Keys(later) && Keys([r] + later)[1..] == Keys(later)
    ensures CheckRoute(r).None? <==> ValidRoute(r)
    ensures AllValid([r] + later) && Fresh(Keys([r] + later), seen) <==>
              ValidRoute(r) && KeyOf(r) !in seen && AllValid(later) && Fresh(Keys(later), seen + {KeyOf(r)})
  {
    CheckRouteExactly(r);
    KeysCons(r, later);
    AllValidCons(r, later);
    FreshCons(KeyOf(r), Keys(later), seen);
  }

  /** What a controller's registrar is handed: every route in order, a path with the selected ones. */
  function Handed(c: Controller, routes: seq<Route>, selects: Selection): seq<ValidatedRoute> {
    if routes == [] then []
    else [Validated(routes[0], selects(c, routes[0]))] + Handed(c, routes[1..], selects)
  }

  // ----- controllers -----

  ghost predicate NoClash(c: Controller, previous: seq<Controller>) {
    forall e :: e in previous ==> e.typeId != c.typeId && e.typeName != c.typeName
  }

  lemma {:induction false} FirstClashExactly(c: Controller, previous: seq<Controller>)
    ensures FirstClash(c, previous).None? <==> NoClash(c, previous)
  {
    if previous != [] {
      FirstClashExactly(c, previous[1..]);
      assert forall e :: e in previous <==> e == previous[0] || e in previous[1..];
    }
  }

  lemma NamedApartCons(contracts: seq<Contract>)
    requires contracts != []
    ensures NamedApart(contracts) <==>
      NamedApart(contracts[1..]) && forall k :: k in contracts[1..] ==> k.traitName != contracts[0].traitName
  {
    var tail := contracts[1..];
    assert forall i :: 0 <= i < |tail| ==> tail[i] == contracts[i + 1];
    if NamedApart(tail) && forall k :: k in tail ==> k.traitName != contracts[0].traitName {
      forall i, j | 0 <= i < j < |contracts| ensures contracts[i].traitName != contracts[j].traitName {
        assert contracts[j] == tail[j - 1] && tail[j - 1] in tail;
      }
    }
  }

  lemma {:induction false} ContractsFromExactly(c: Controller, contracts: seq<Contract>, names: set<string>)
    ensures CheckContractsFrom(c, contracts, names).None? <==>
      && (forall k :: k in contracts ==> k.traitName != "" && k.routes != [] && k.traitName !in names)
      && NamedApart(contracts)
    decreases |contracts|
  {
    if contracts != [] {
      ContractsFromExactly(c, contracts[1..], names + {contracts[0].traitName});
      NamedApartCons(contracts);
      assert forall k :: k in contracts <==> k == contracts[0] || k in contracts[1..];
    }
  }

  lemma ContractsExactly(c: Controller)
    ensures CheckContracts(c).None? <==> ContractsOk(c.contracts)
  {
    ContractsFromExactly(c, c.contracts, {});
  }

  lemma CheckControllerExactly(c: Controller, previous: seq<Controller>)
    ensures CheckController(c, previous).None? <==> WellDescribed(c) && NoClash(c, previous)
  {
    FirstClashExactly(c, previous);
    ContractsExactly(c);
  }

  /** The controllers pass one after the other, given those before them. */
  ghost predicate PassInTurn(controllers: seq<Controller>, previous: seq<Controller>)
    decreases |controllers|
  {
    controllers == []
    || (WellDescribed(controllers[0]) && NoClash(controllers[0], previous)
        && PassInTurn(controllers[1..], previous + [controllers[0]]))
  }

  /** What all controllers in turn require of identities, said at once. */
  ghost predicate Apart(controllers: seq<Controller>, previous: seq<Controller>) {
    && Distinct(TypeNames(controllers)) && Distinct(TypeIds(controllers))
    && forall c :: c in controllers ==> NoClash(c, previous)
  }

  lemma NamesHold(controllers: seq<Controller>)
    ensures forall y :: y in TypeNames(controllers) <==> exists c :: c in controllers && c.typeName == y
    ensures forall y :: y in TypeIds(controllers) <==> exists c :: c in controllers && c.typeId == y
  {
    forall y ensures y in TypeNames(controllers) <==> exists c :: c in controllers && c.typeName == y {
      GatherHas((c: Controller) => [c.typeName], controllers, y);
    }
    forall y ensures y in TypeIds(controllers) <==> exists c :: c in controllers && c.typeId == y {
      GatherHas((c: Controller) => [c.typeId], controllers, y);
    }
  }

  lemma ApartNames(controllers: seq<Controller>)
    requires controllers != []
    ensures Distinct(TypeNames(controllers)) && Distinct(TypeIds(controllers)) <==>
      && Distinct(TypeNames(controllers[1..])) && Distinct(TypeIds(controllers[1..]))
      && forall c :: c in controllers[1..] ==>
           c.typeName != controllers[0].typeName && c.typeId != controllers[0].typeId
  {
    var head, tail := controllers[0], controllers[1..];
    assert TypeNames(controllers) == [head.typeName] + TypeNames(tail);
    assert TypeIds(controllers) == [head.typeId] + TypeIds(tail);
    DistinctSplit(TypeNames(controllers));
    DistinctSplit(TypeIds(controllers));
    assert TypeNames(controllers)[1..] == TypeNames(tail) && TypeIds(controllers)[1..] == TypeIds(tail);
    NamesHold(tail);
  }

  lemma {:induction false} PassInTurnExactly(controllers: seq<Controller>, previous: seq<Controller>)
    ensures PassInTurn(controllers, previous) <==>
              (forall c :: c in controllers ==> WellDescribed(c)) && Apart(controllers, previous)
    decreases |controllers|
  {
    if controllers != [] {
      var head, tail := controllers[0], controllers[1..];
      PassInTurnExactly(tail, previous + [head]);
      ApartNames(controllers);
      assert forall c :: c in controllers <==> c == head || c in tail;
      assert forall c :: NoClash(c, previous + [head]) <==>
        NoClash(c, previous) && head.typeId != c.typeId && head.typeName != c.typeName by {
        assert forall e :: e in previous + [head] <==> e in previous || e == head;
      }
    }
  }

  // ----- catalogues -----

  function HandedAll(controllers: seq<Controller>, selects: Selection): seq<ValidatedController> {
    if controllers == [] then []
    else
      var c := controllers[0];
      [ValidatedController(if c.registrar.Some? then c.registrar.value else 0, Handed(c, RoutesOf(c), selects))]
      + HandedAll(controllers[1..], selects)
  }

  lemma {:induction false} FreshConcat(a: seq<Key>, b: seq<Key>, seen: set<Key>)
    ensures Fresh(a + b, seen) <==> Fresh(a, seen) && Fresh(b, seen + set k | k in a)
  {
    if a == [] {
      assert a + b == b;
      assert seen + (set k | k in a) == seen;
    } else {
      FreshConcat(a[1..], b, seen + {a[0]});
      assert a + b == [a[0]] + (a[1..] + b) && a == [a[0]] + a[1..];
      FreshCons(a[0], a[1..] + b, seen);
      FreshCons(a[0], a[1..], seen);
      SeenSplit(a, seen);
    }
  }

  lemma SeenSplit(a: seq<Key>, seen: set<Key>)
    requires a != []
    ensures seen + {a[0]} + (set k | k in a[1..]) == seen + set k | k in a
  {
    assert forall k :: k in a <==> k == a[0] || k in a[1..];
  }

  lemma AllValidConcat(a: seq<Route>, b: seq<Route>)
    ensures AllValid(a + b) <==> AllValid(a) && AllValid(b)
  {
    assert forall r :: r in a + b <==> r in a || r in b;
  }

  ghost predicate Accepts(controllers: seq<Controller>, selects: Selection, previous: seq<Controller>, seen: set<Key>) {
    && PassInTurn(controllers, previous)
    && AllValid(SelectedRoutes(controllers, selects))
    && Fresh(Keys(SelectedRoutes(controllers, selects)), seen)
  }

  lemma AcceptsCons(controllers: seq<Controller>, selects: Selection, previous: seq<Controller>, seen: set<Key>)
    requires controllers != []
    ensures var c := controllers[0];
            var selected := Selected(c, RoutesOf(c), selects);
      Accepts(controllers, selects, previous, seen) <==>
        && WellDescribed(c) && NoClash(c, previous) && AllValid(selected) && Fresh(Keys(selected), seen)
        && Accepts(controllers[1..], selects, previous + [c], seen + set k | k in Keys(selected))
  {
    var c := controllers[0];
    var selected, later := Selected(c, RoutesOf(c), selects), SelectedRoutes(controllers[1..], selects);
    assert SelectedRoutes(controllers, selects) == selected + later;
    AllValidConcat(selected, later);
    KeysConcat(selected, later);
    FreshConcat(Keys(selected), Keys(later), seen);
  }

  lemma Associates<T>(a: seq<T>, b: seq<T>, c: seq<T>)
    ensures a + b + c == a + (b + c)
  {}

  lemma HandedAllCons(controllers: seq<Controller>, selects: Selection, before: seq<ValidatedController>)
    requires controllers != [] && controllers[0].registrar.Some?
    ensures var c := controllers[0];
      before + [ValidatedController(c.registrar.value, Handed(c, RoutesOf(c), selects))]
      + HandedAll(controllers[1..], selects)
      == before + HandedAll(controllers, selects)
  {
    var c := controllers[0];
    Associates(before, [ValidatedController(c.registrar.value, Handed(c, RoutesOf(c), selects))],
               HandedAll(controllers[1..], selects));
  }

  lemma {:induction false} TakeControllersExactly(controllers: seq<Controller>, selects: Selection,
                                                  previous: seq<Controller>, so: Catalog)
    ensures var r := TakeControllers(controllers, selects, previous, so);
      && (r.Success? <==> Accepts(controllers, selects, previous, so.seen.Keys))
      && (r.Success? ==> r.value.controllers == so.controllers + HandedAll(controllers, selects))
    decreases |controllers|
  {
    if controllers != [] {
      var c := controllers[0];
      CheckControllerExactly(c, previous);
      TakeRoutesExactly(c, RoutesOf(c), selects, Progress(so.seen, []));
      AcceptsCons(controllers, selects, previous, so.seen.Keys);
      var routes := TakeRoutes(c, RoutesOf(c), selects, Progress(so.seen, []));
      if CheckController(c, previous).None? && routes.Success? {
        var handed := ValidatedController(c.registrar.value, routes.value.routes);
        assert routes.value.routes == Handed(c, RoutesOf(c), selects);
        HandedAllCons(controllers, selects, so.controllers);
        TakeControllersExactly(controllers[1..], selects, previous + [c],
                               Catalog(routes.value.seen, so.controllers + [handed]));
      }
    } else {
      assert so.controllers + [] == so.controllers;
    }
  }

  lemma AcceptsAtOnce(controllers: seq<Controller>, selects: Selection)
    ensures Accepts(controllers, selects, [], {}) <==>
              ControllersOk(controllers) && RoutesOk(SelectedRoutes(controllers, selects))
  {
    PassInTurnExactly(controllers, []);
    DistinctKeysExactly(SelectedRoutes(controllers, selects));
  }

  lemma ControllersPermute(a: seq<Controller>, b: seq<Controller>)
    requires multiset(a) == multiset(b)
    ensures ControllersOk(a) <==> ControllersOk(b)
  {
    SameElements(a, b);
    GatherPermutes((c: Controller) => [c.typeName], a, b);
    GatherPermutes((c: Controller) => [c.typeId], a, b);
    DistinctPermutation(TypeNames(a), TypeNames(b));
    DistinctPermutation(TypeIds(a), TypeIds(b));
  }

  function KeysOf(selects: Selection): Controller -> seq<Key> {
    (c: Controller) => Keys(Selected(c, RoutesOf(c), selects))
  }

  lemma {:induction false} KeysGather(controllers: seq<Controller>, selects: Selection)
    ensures Keys(SelectedRoutes(controllers, selects)) == Gather(KeysOf(selects), controllers)
  {
    if controllers != [] {
      var c := controllers[0];
      KeysGather(controllers[1..], selects);
      KeysConcat(Selected(c, RoutesOf(c), selects), SelectedRoutes(controllers[1..], selects));
    }
  }

  lemma RoutesPermute(a: seq<Controller>, b: seq<Controller>, selects: Selection)
    requires multiset(a) == multiset(b)
    ensures RoutesOk(SelectedRoutes(a, selects)) <==> RoutesOk(SelectedRoutes(b, selects))
  {
    GatherPermutes(SelectedOf(selects), a, b);
    SameElements(SelectedRoutes(a, selects), SelectedRoutes(b, selects));
    GatherPermutes(KeysOf(selects), a, b);
    KeysGather(a, selects);
    KeysGather(b, selects);
    DistinctPermutation(Keys(SelectedRoutes(a, selects)), Keys(SelectedRoutes(b, selects)));
    DistinctKeysExactly(SelectedRoutes(a, selects));
    DistinctKeysExactly(SelectedRoutes(b, selects));
  }

  /** A catalogue is accepted exactly when its controllers are well described and
    * told apart by name and by identifier, every selected route is valid, and no
    * two selected routes with one method match the same requests. Every
    * registrar is then handed its routes in the order they were declared.
    */
  lemma AcceptedExactly(descriptors: seq<Controller>, selects: Selection)
    ensures ValidateCatalog(descriptors, selects).Success? <==>
              ControllersOk(descriptors) && RoutesOk(SelectedRoutes(descriptors, selects))
    ensures ValidateCatalog(descriptors, selects).Success? ==>
              ValidateCatalog(descriptors, selects).value == HandedAll(Sort(ControllerLe, descriptors), selects)
  {
    var sorted := Sort(ControllerLe, descriptors);
    TakeControllersExactly(sorted, selects, [], Catalog(map[], []));
    AcceptsAtOnce(sorted, selects);
    ControllersPermute(sorted, descriptors);
    RoutesPermute(sorted, descriptors, selects);
    assert [] + HandedAll(sorted, selects) == HandedAll(sorted, selects);
  }

  lemma ControllerLeIsTotal(a: Controller, b: Controller)
    ensures ControllerLe(a, b) || ControllerLe(b, a)
  {
    StringLeTotal(a.typeName, b.typeName);
    if a.namespace.Some? && b.namespace.Some? { StringLeTotal(a.namespace.value, b.namespace.value); }
    PlaceLeIsTotal(LocationOf(a), LocationOf(b));
  }

  lemma OptionLeIsTransitive(a: Option<string>, b: Option<string>, c: Option<string>)
    requires OptionLe(a, b) && OptionLe(b, c)
    ensures OptionLe(a, c) && (a == c ==> a == b)
  {
    if a.Some? {
      StringLeTransitive(a.value, b.value, c.value);
      if a == c { StringLeAntisymmetric(a.value, b.value); }
    }
  }

  lemma ControllerLeIsTransitive(a: Controller, b: Controller, c: Controller)
    requires ControllerLe(a, b) && ControllerLe(b, c)
    ensures ControllerLe(a, c)
  {
    if a.typeName != b.typeName && b.typeName != c.typeName {
      StringLeTransitive(a.typeName, b.typeName, c.typeName);
      if a.typeName == c.typeName { StringLeAntisymmetric(a.typeName, b.typeName); }
    } else if a.typeName == b.typeName == c.typeName {
      SameNameIsTransitive(a, b, c);
    }
  }

  lemma SameNameIsTransitive(a: Controller, b: Controller, c: Controller)
    requires a.typeName == b.typeName == c.typeName && ControllerLe(a, b) && ControllerLe(b, c)
    ensures ControllerLe(a, c)
  {
    if a.namespace != b.namespace && b.namespace != c.namespace {
      OptionLeIsTransitive(a.namespace, b.namespace, c.namespace);
    } else if a.namespace == b.namespace == c.namespace {
      PlaceLeIsTransitive(LocationOf(a), LocationOf(b), LocationOf(c));
    }
  }

  lemma ControllerLeIsTotalPreorder()
    ensures TotalPreorder(ControllerLe)
  {
    forall a, b ensures ControllerLe(a, b) || ControllerLe(b, a) { ControllerLeIsTotal(a, b); }
    forall a, b, c | ControllerLe(a, b) && ControllerLe(b, c) ensures ControllerLe(a, c) {
      ControllerLeIsTransitive(a, b, c);
    }
  }

  ghost predicate PlaceFollows(x: Location, y: Location) {
    && StringLe(x.file, y.file)
    && (x.file == y.file ==> x.line <= y.line)
    && (x.file == y.file && x.line == y.line ==> x.column <= y.column)
  }

  /** `b` comes no earlier than `a`: by type name, by namespace with none first, by the place of the first route. */
  ghost predicate ControllerFollows(a: Controller, b: Controller) {
    && StringLe(a.typeName, b.typeName)
    && (a.typeName == b.typeName ==>
          && (b.namespace.None? ==> a.namespace.None?)
          && (a.namespace.Some? && b.namespace.Some? ==> StringLe(a.namespace.value, b.namespace.value))
          && (a.namespace == b.namespace ==>
                exists x, y :: IsPlaceOf(a, x) && IsPlaceOf(b, y) && PlaceFollows(x, y)))
  }

  ghost predicate NoRoutes(contracts: seq<Contract>) {
    forall i :: 0 <= i < |contracts| ==> contracts[i].routes == []
  }

  /** Where the first route of the first contract that has any is declared. */
  ghost predicate IsPlaceOf(c: Controller, place: Location) {
    || (NoRoutes(c.contracts) && place == Location("", 0, 0))
    || exists i :: 0 <= i < |c.contracts| && NoRoutes(c.contracts[..i])
                   && c.contracts[i].routes != [] && place == c.contracts[i].routes[0].location
  }

  lemma {:induction false} FirstRouteIs(contracts: seq<Contract>) returns (i: nat)
    ensures var routes := Gather((contract: Contract) => contract.routes, contracts);
      if i == |contracts| then NoRoutes(contracts) && routes == []
      else i < |contracts| && NoRoutes(contracts[..i]) && contracts[i].routes != [] && routes != []
           && routes[0] == contracts[i].routes[0]
  {
    if contracts == [] || contracts[0].routes != [] {
      i := 0;
    } else {
      i := FirstRouteIs(contracts[1..]);
      i := i + 1;
    }
  }

  lemma PlaceIs(c: Controller)
    ensures IsPlaceOf(c, LocationOf(c))
  {
    var i := FirstRouteIs(c.contracts);
  }

  lemma ControllerLeFollows(a: Controller, b: Controller)
    requires ControllerLe(a, b)
    ensures ControllerFollows(a, b)
  {
    StringLeReflexive(a.typeName);
    if a.namespace.Some? { StringLeReflexive(a.namespace.value); }
    PlaceIs(a);
    PlaceIs(b);
    StringLeReflexive(LocationOf(a).file);
  }

  /** Controllers are validated, and their routes handed over, in this order. */
  lemma ControllersInOrder(descriptors: seq<Controller>)
    ensures var sorted := Sort(ControllerLe, descriptors);
      multiset(sorted) == multiset(descriptors)
      && forall i, j :: 0 <= i < j < |sorted| ==> ControllerFollows(sorted[i], sorted[j])
  {
    var sorted := Sort(ControllerLe, descriptors);
    ControllerLeIsTotalPreorder();
    SortIsSorted(ControllerLe, descriptors);
    forall i, j | 0 <= i < j < |sorted| ensures ControllerFollows(sorted[i], sorted[j]) {
      ControllerLeFollows(sorted[i], sorted[j]);
    }
  }

  lemma {:induction false} NameTellsController(controllers: seq<Controller>, x: Controller, y: Controller)
    requires Distinct(TypeNames(controllers)) && x in controllers && y in controllers && x.typeName == y.typeName
    ensures x == y
  {
    var head, tail := controllers[0], controllers[1..];
    assert TypeNames(controllers) == [head.typeName] + TypeNames(tail);
    assert TypeNames(controllers)[1..] == TypeNames(tail);
    DistinctSplit(TypeNames(controllers));
    NamesHold(tail);
    if x in tail && y in tail { NameTellsController(tail, x, y); }
  }

  lemma LevelIsEqual(controllers: seq<Controller>, x: Controller, y: Controller)
    requires Distinct(TypeNames(controllers)) && x in controllers && y in controllers
    requires ControllerLe(x, y) && ControllerLe(y, x)
    ensures x == y
  {
    if x.typeName != y.typeName { StringLeAntisymmetric(x.typeName, y.typeName); }
    NameTellsController(controllers, x, y);
  }

  /** Controllers with names of their own are sorted in one way. */
  lemma SortedAlike(a: seq<Controller>, b: seq<Controller>)
    requires multiset(a) == multiset(b) && Distinct(TypeNames(a))
    ensures Sort(ControllerLe, a) == Sort(ControllerLe, b)
  {
    var x, y := Sort(ControllerLe, a), Sort(ControllerLe, b);
    ControllerLeIsTotalPreorder();
    SortIsSorted(ControllerLe, a);
    SortIsSorted(ControllerLe, b);
    SameElements(x, a);
    forall c, d | c in x && d in x && ControllerLe(c, d) && ControllerLe(d, c) ensures c == d {
      LevelIsEqual(a, c, d);
    }
    SortedIsUnique(ControllerLe, x, y);
  }

  /** The order in which controllers are registered decides neither acceptance nor
    * what an accepted catalogue hands to its registrars.
    */
  lemma OrderDoesNotMatter(a: seq<Controller>, b: seq<Controller>, selects: Selection)
    requires multiset(a) == multiset(b)
    ensures ValidateCatalog(a, selects).Success? <==> ValidateCatalog(b, selects).Success?
    ensures ValidateCatalog(a, selects).Success? ==>
              ValidateCatalog(a, selects).value == ValidateCatalog(b, selects).value
  {
    AcceptedExactly(a, selects);
    AcceptedExactly(b, selects);
    ControllersPermute(a, b);
    RoutesPermute(a, b, selects);
    if ControllersOk(a) { SortedAlike(a, b); }
  }

  // ----- handing routes to a registrar -----

  datatype IteratorError = Unexpected | Mismatch | Unregistered

  /** One request of a generated registrar. */
  datatype Request = Request(method_: HttpMethod, handler: string)

  class ValidatedRouteIter {
    const routes: seq<ValidatedRoute>
    var position: nat

    ghost predicate Valid()
      reads this
    {
      position <= |routes|
    }

    constructor (routes: seq<ValidatedRoute>)
      ensures this.routes == routes && position == 0 && Valid()
    {
      this.routes := routes;
      position := 0;
    }

    /** The path of the next route, if it is the requested one; `None` where it is not selected. */
    method Next(request: Request) returns (r: Result<Option<string>, IteratorError>)
      requires Valid()
      modifies this
      ensures Valid() && r == NextResult(routes, old(position), request)
      ensures position == if old(position) < |routes| then old(position) + 1 else old(position)
    {
      if position == |routes| {
        return Failure(Unexpected);
      }
      var route := routes[position];
      position := position + 1;
      if route.method_ != request.method_ || route.handler != request.handler {
        return Failure(Mismatch);
      }
      return Success(if route.selected then route.axumPath else None);
    }

    method Finish() returns (r: Result<(), IteratorError>)
      requires Valid()
      modifies this
      ensures Valid() && r == if old(position) < |routes| then Failure(Unregistered) else Success(())
    {
      if position < |routes| {
        position := position + 1;
        return Failure(Unregistered);
      }
      return Success(());
    }
  }

  function NextResult(routes: seq<ValidatedRoute>, position: nat, request: Request): Result<Option<string>,
                      IteratorError>
  {
    if position >= |routes| then Failure(Unexpected)
    else if routes[position].method_ != request.method_ || routes[position].handler != request.handler
    then Failure(Mismatch)
    else Success(if routes[position].selected then routes[position].axumPath else None)
  }

  /** A registrar that stops at the first error and finishes at the end. */
  method Register(routes: seq<ValidatedRoute>, requests: seq<Request>)
    returns (r: Result<seq<Option<string>>, IteratorError>)
    ensures r == Registered(routes, requests, 0, [])
  {
    var iterator_ := new ValidatedRouteIter(routes);
    var paths: seq<Option<string>> := [];
    for i := 0 to |requests|
      invariant iterator_.Valid() && iterator_.routes == routes && iterator_.position == i
      invariant Registered(routes, requests, 0, []) == Registered(routes, requests, i, paths)
    {
      var path := iterator_.Next(requests[i]);
      if path.Failure? {
        return Failure(path.error);
      }
      paths := paths + [path.value];
    }
    var finished := iterator_.Finish();
    return if finished.Failure? then Failure(finished.error) else Success(paths);
  }

  function Registered(routes: seq<ValidatedRoute>, requests: seq<Request>, i: nat, paths: seq<Option<string>>)
    : Result<seq<Option<string>>, IteratorError>
    requires i <= |requests|
    decreases |requests| - i
  {
    if i == |requests| then (if i < |routes| then Failure(Unregistered) else Success(paths))
    else
      var path := NextResult(routes, i, requests[i]);
      if path.Failure? then Failure(path.error) else Registered(routes, requests, i + 1, paths + [path.value])
  }

  function RequestOf(route: Route): Request { Request(route.method_, route.handler) }

  /** `requests` ask for exactly the declared routes, in order. */
  ghost predicate AsksFor(requests: seq<Request>, routes: seq<ValidatedRoute>, from: nat) {
    |requests| == |routes|
    && forall k :: from <= k < |routes| ==> requests[k] == Request(routes[k].method_, routes[k].handler)
  }

  lemma {:induction false} RegistersExactly(routes: seq<ValidatedRoute>, requests: seq<Request>, i: nat,
                                            paths: seq<Option<string>>)
    requires i <= |requests| && i <= |routes| && |paths| == i
    ensures Registered(routes, requests, i, paths).Success? <==> AsksFor(requests, routes, i)
    ensures Registered(routes, requests, i, paths).Success? ==>
      var all := Registered(routes, requests, i, paths).value;
      && |all| == |routes| && all[..i] == paths
      && forall k :: i <= k < |routes| ==> all[k] == if routes[k].selected then routes[k].axumPath else None
    decreases |requests| - i
  {
    if i < |requests| && i < |routes| {
      var path := NextResult(routes, i, requests[i]);
      if path.Success? {
        RegistersExactly(routes, requests, i + 1, paths + [path.value]);
        if Registered(routes, requests, i, paths).Success? {
          var all := Registered(routes, requests, i, paths).value;
          assert all[..i + 1][..i] == all[..i] && all[..i + 1][i] == all[i];
        }
      }
    }
  }

  lemma {:induction false} HandedAre(c: Controller, routes: seq<Route>, selects: Selection)
    ensures |Handed(c, routes, selects)| == |routes|
    ensures forall k :: 0 <= k < |routes| ==>
      Handed(c, routes, selects)[k] == Validated(routes[k], selects(c, routes[k]))
  {
    if routes != [] { HandedAre(c, routes[1..], selects); }
  }

  /** A registrar succeeds exactly when it asks for its controller's routes in
    * order; it is then given the router path of each selected route and nothing
    * for the others.
    */
  lemma RegistrarGetsItsRoutes(c: Controller, selects: Selection, requests: seq<Request>)
    ensures var routes := RoutesOf(c);
            var r := Registered(Handed(c, routes, selects), requests, 0, []);
      && (r.Success? <==>
            |requests| == |routes| && forall k :: 0 <= k < |routes| ==> requests[k] == RequestOf(routes[k]))
      && (r.Success? ==> |r.value| == |routes| && forall k :: 0 <= k < |routes| ==>
            r.value[k] == if selects(c, routes[k]) then Some(ToAxumPath(routes[k].fullPath)) else None)
  {
    HandedAre(c, RoutesOf(c), selects);
    RegistersExactly(Handed(c, RoutesOf(c), selects), requests, 0, []);
  }
  /** What the registrar of one controller is handed. */
  ghost predicate HandsOver(c: Controller, selects: Selection, v: ValidatedController) {
    && c.registrar == Some(v.registrar) && |v.routes| == |RoutesOf(c)|
    && forall k :: 0 <= k < |v.routes| ==>
         var r := RoutesOf(c)[k];
         && v.routes[k].method_ == r.method_ && v.routes[k].handler == r.handler
         && v.routes[k].selected == selects(c, r)
         && v.routes[k].axumPath == if selects(c, r) then Some(ToAxumPath(r.fullPath)) else None
  }

  lemma {:induction false} HandedAllPairs(controllers: seq<Controller>, selects: Selection)
    requires forall c :: c in controllers ==> c.registrar.Some?
    ensures var all := HandedAll(controllers, selects);
      |all| == |controllers| && forall i :: 0 <= i < |all| ==> HandsOver(controllers[i], selects, all[i])
    decreases |controllers|
  {
    if controllers != [] {
      var all, rest := HandedAll(controllers, selects), HandedAll(controllers[1..], selects);
      HandedAllPairs(controllers[1..], selects);
      HandedAre(controllers[0], RoutesOf(controllers[0]), selects);
      forall i | 0 <= i < |all| ensures HandsOver(controllers[i], selects, all[i]) {
        if i > 0 { assert all[i] == rest[i - 1] && controllers[i] == controllers[1..][i - 1]; }
      }
    }
  }

  /** An accepted catalogue pairs each controller's own registrar with its own routes. */
  lemma AcceptedPairs(descriptors: seq<Controller>, selects: Selection)
    requires ValidateCatalog(descriptors, selects).Success?
    ensures var sorted := Sort(ControllerLe, descriptors); var all := ValidateCatalog(descriptors, selects).value;
      |all| == |descriptors| == |sorted| && forall i :: 0 <= i < |all| ==> HandsOver(sorted[i], selects, all[i])
  {
    var sorted := Sort(ControllerLe, descriptors);
    AcceptedExactly(descriptors, selects);
    SameElements(sorted, descriptors);
    forall c | c in sorted ensures c.registrar.Some? {
      assert c in descriptors && WellDescribed(c);
    }
    HandedAllPairs(sorted, selects);
    assert |multiset(sorted)| == |multiset(descriptors)|;
  }
}
