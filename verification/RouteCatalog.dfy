/** Validation of a whole catalogue of controllers.
  * Models `validate_with_selection` and its checks in
  * crates/mads-common/src/route.rs.
  */
module RouteCatalog {
  import opened Wrappers
  import opened Locations
  import opened Orders
  import opened RoutePaths

  datatype HttpMethod = Get | Post | Put | Patch | Delete

  datatype Route = Route(method_: HttpMethod, prefix: string, path: string, fullPath: string, handler: string,
                         location: Location)

  datatype Contract = Contract(traitName: string, routes: seq<Route>)

  /** `registrar` stands for the registration function, if there is one. */
  datatype Controller = Controller(typeName: string, typeId: nat, namespace: Option<string>, contracts: seq<Contract>,
                                   registrar: Option<nat>)

  datatype CatalogError =
    | EmptyTypeName
    | DuplicateTypeId(current: Controller, previous: Controller)
    | DuplicateTypeName(current: Controller, previous: Controller)
    | NoContracts(controller: Controller)
    | EmptyContractName(controller: Controller)
    | EmptyContract(contract: Contract)
    | DuplicateContract(contract: Contract)
    | NoRegistrar(controller: Controller)
    | InvalidPath(route: Route, error: PathError)
    | JoinMismatch(route: Route)
    | NoLocation
    | Conflict(typeName: string, route: Route, previousTypeName: string, previousRoute: Route)

  datatype ValidatedRoute = ValidatedRoute(method_: HttpMethod, handler: string, selected: bool,
                                            axumPath: Option<string>)

  datatype ValidatedController = ValidatedController(registrar: nat, routes: seq<ValidatedRoute>)

  type Selection = (Controller, Route) -> bool

  // ----- the order of controllers -----

  function RoutesOf(c: Controller): seq<Route> {
    Gather((contract: Contract) => contract.routes, c.contracts)
  }

  function LocationOf(c: Controller): Location {
    var first := RoutesOf(c);
    if first == [] then Location("", 0, 0) else first[0].location
  }

  predicate OptionLe(a: Option<string>, b: Option<string>) {
    a.None? || (b.Some? && StringLe(a.value, b.value))
  }

  predicate ControllerLe(a: Controller, b: Controller) {
    if a.typeName != b.typeName then StringLe(a.typeName, b.typeName)
    else if a.namespace != b.namespace then OptionLe(a.namespace, b.namespace)
    else PlaceLe(LocationOf(a), LocationOf(b))
  }

  // ----- per-controller checks -----

  function FirstClash(c: Controller, previous: seq<Controller>): Option<CatalogError> {
    if previous == [] then None
    else if previous[0].typeId == c.typeId then Some(DuplicateTypeId(c, previous[0]))
    else if previous[0].typeName == c.typeName then Some(DuplicateTypeName(c, previous[0]))
    else FirstClash(c, previous[1..])
  }

  function CheckIdentity(c: Controller, previous: seq<Controller>): Option<CatalogError> {
    if c.typeName == "" then Some(EmptyTypeName) else FirstClash(c, previous)
  }

  function CheckContractsFrom(c: Controller, contracts: seq<Contract>, names: set<string>): Option<CatalogError>
    decreases |contracts|
  {
    if contracts == [] then None
    else if contracts[0].traitName == "" then Some(EmptyContractName(c))
    else if contracts[0].routes == [] then Some(EmptyContract(contracts[0]))
    else if contracts[0].traitName in names then Some(DuplicateContract(contracts[0]))
    else CheckContractsFrom(c, contracts[1..], names + {contracts[0].traitName})
  }

  function CheckContracts(c: Controller): Option<CatalogError> {
    if c.contracts == [] then Some(NoContracts(c)) else CheckContractsFrom(c, c.contracts, {})
  }

  function CheckController(c: Controller, previous: seq<Controller>): Option<CatalogError> {
    var identity, contracts := CheckIdentity(c, previous), CheckContracts(c);
    if identity.Some? then identity
    else if contracts.Some? then contracts
    else if c.registrar.None? then Some(NoRegistrar(c))
    else None
  }

  // ----- per-route checks -----

  function CheckRoute(r: Route): Option<CatalogError> {
    var prefix, path, full := CheckPath(r.prefix, true), CheckPath(r.path, false), CheckPath(r.fullPath, false);
    if prefix.Some? then Some(InvalidPath(r, prefix.value))
    else if path.Some? then Some(InvalidPath(r, path.value))
    else if full.Some? then Some(InvalidPath(r, full.value))
    else if CanonicalJoin(r.prefix, r.path) != r.fullPath then Some(JoinMismatch(r))
    else if r.location.file == "" || r.location.line == 0 || r.location.column == 0 then Some(NoLocation)
    else None
  }

  datatype Key = Key(method_: HttpMethod, pattern: string)

  function KeyOf(r: Route): Key { Key(r.method_, CanonicalPattern(r.fullPath)) }

  datatype Seen = Seen(controller: string, route: Route)

  datatype Progress = Progress(seen: map<Key, Seen>, routes: seq<ValidatedRoute>)

  function Validated(r: Route, selected: bool): ValidatedRoute {
    ValidatedRoute(r.method_, r.handler, selected, if selected then Some(ToAxumPath(r.fullPath)) else None)
  }

  function TakeRoutes(c: Controller, routes: seq<Route>, selects: Selection, p: Progress)
    : Result<Progress, CatalogError>
    decreases |routes|
  {
    if routes == [] then Success(p)
    else
      var r := routes[0];
      if !selects(c, r) then TakeRoutes(c, routes[1..], selects, p.(routes := p.routes + [Validated(r, false)]))
      else
        var error := CheckRoute(r);
        if error.Some? then Failure(error.value)
        else if KeyOf(r) in p.seen
        then Failure(Conflict(c.typeName, r, p.seen[KeyOf(r)].controller, p.seen[KeyOf(r)].route))
        else TakeRoutes(c, routes[1..], selects,
                        Progress(p.seen[KeyOf(r) := Seen(c.typeName, r)], p.routes + [Validated(r, true)]))
  }

  datatype Catalog = Catalog(seen: map<Key, Seen>, controllers: seq<ValidatedController>)

  function TakeControllers(controllers: seq<Controller>, selects: Selection, previous: seq<Controller>, so: Catalog)
    : Result<Catalog, CatalogError>
    decreases |controllers|
  {
    if controllers == [] then Success(so)
    else
      var c := controllers[0];
      var error := CheckController(c, previous);
      if error.Some? then Failure(error.value)
      else
        var routes := TakeRoutes(c, RoutesOf(c), selects, Progress(so.seen, []));
        if routes.Failure? then Failure(routes.error)
        else
          var registrar := if c.registrar.Some? then c.registrar.value else 0;
          TakeControllers(controllers[1..], selects, previous + [c],
                          Catalog(routes.value.seen,
                                  so.controllers + [ValidatedController(registrar, routes.value.routes)]))
  }

  function ValidateCatalog(descriptors: seq<Controller>, selects: Selection)
    : Result<seq<ValidatedController>, CatalogError>
  {
    var r := TakeControllers(Sort(ControllerLe, descriptors), selects, [], Catalog(map[], []));
    if r.Failure? then Failure(r.error) else Success(r.value.controllers)
  }

  // ----- the validation as it runs -----

  method ValidateRoute(r: Route) returns (error: Option<CatalogError>)
    ensures error == CheckRoute(r)
  {
    var path := ValidatePath(r.prefix, true);
    if path.Some? { return Some(InvalidPath(r, path.value)); }
    path := ValidatePath(r.path, false);
    if path.Some? { return Some(InvalidPath(r, path.value)); }
    path := ValidatePath(r.fullPath, false);
    if path.Some? { return Some(InvalidPath(r, path.value)); }
    if CanonicalJoin(r.prefix, r.path) != r.fullPath { return Some(JoinMismatch(r)); }
    if r.location.file == "" || r.location.line == 0 || r.location.column == 0 { return Some(NoLocation); }
    return None;
  }

  method ValidateControllerIdentity(c: Controller, previous: seq<Controller>) returns (error: Option<CatalogError>)
    ensures error == CheckIdentity(c, previous)
  {
    if c.typeName == "" { return Some(EmptyTypeName); }
    for i := 0 to |previous|
      invariant FirstClash(c, previous) == FirstClash(c, previous[i..])
    {
      assert previous[i..][1..] == previous[i + 1..];
      if previous[i].typeId == c.typeId { return Some(DuplicateTypeId(c, previous[i])); }
      if previous[i].typeName == c.typeName { return Some(DuplicateTypeName(c, previous[i])); }
    }
    return None;
  }

  method ValidateContracts(c: Controller) returns (error: Option<CatalogError>)
    ensures error == CheckContracts(c)
  {
    if c.contracts == [] { return Some(NoContracts(c)); }
    var names: set<string> := {};
    for i := 0 to |c.contracts|
      invariant CheckContractsFrom(c, c.contracts, {}) == CheckContractsFrom(c, c.contracts[i..], names)
    {
      var contract := c.contracts[i];
      assert c.contracts[i..][1..] == c.contracts[i + 1..];
      if contract.traitName == "" { return Some(EmptyContractName(c)); }
      if contract.routes == [] { return Some(EmptyContract(contract)); }
      if contract.traitName in names { return Some(DuplicateContract(contract)); }
      names := names + {contract.traitName};
    }
    return None;
  }

  /** The loops over a controller's contracts and their routes. */
  method ValidateRoutes(c: Controller, selects: Selection, before: map<Key, Seen>)
    returns (error: Option<CatalogError>, seen: map<Key, Seen>, routes: seq<ValidatedRoute>)
    ensures TakeRoutes(c, RoutesOf(c), selects, Progress(before, []))
         == if error.Some? then Failure(error.value) else Success(Progress(seen, routes))
  {
    seen, routes := before, [];
    var all := RoutesOf(c);
    for i := 0 to |all|
      invariant TakeRoutes(c, all, selects, Progress(before, []))
           == TakeRoutes(c, all[i..], selects, Progress(seen, routes))
    {
      var route := all[i];
      assert all[i..][1..] == all[i + 1..];
      var selected := selects(c, route);
      if selected {
        error := ValidateRoute(route);
        if error.Some? { return; }
        var key := KeyOf(route);
        if key in seen {
          return Some(Conflict(c.typeName, route, seen[key].controller, seen[key].route)), seen, routes;
        }
        seen := seen[key := Seen(c.typeName, route)];
      }
      routes := routes + [Validated(route, selected)];
    }
    error := None;
  }

  method ValidateWithSelection(descriptors: seq<Controller>, selects: Selection)
    returns (r: Result<seq<ValidatedController>, CatalogError>)
    ensures r == ValidateCatalog(descriptors, selects)
  {
    var controllers := Sort(ControllerLe, descriptors);
    var identities: seq<Controller>, seen: map<Key, Seen> := [], map[];
    var validated: seq<ValidatedController> := [];
    for i := 0 to |controllers|
      invariant TakeControllers(controllers, selects, [], Catalog(map[], []))
             == TakeControllers(controllers[i..], selects, identities, Catalog(seen, validated))
    {
      var controller := controllers[i];
      assert controllers[i..][1..] == controllers[i + 1..];
      var error := ValidateControllerIdentity(controller, identities);
      if error.Some? { return Failure(error.value); }
      error := ValidateContracts(controller);
      if error.Some? { return Failure(error.value); }
      if controller.registrar.None? { return Failure(NoRegistrar(controller)); }
      var routes;
      error, seen, routes := ValidateRoutes(controller, selects, seen);
      if error.Some? { return Failure(error.value); }
      identities := identities + [controller];
      validated := validated + [ValidatedController(controller.registrar.value, routes)];
    }
    return Success(validated);
  }
}
