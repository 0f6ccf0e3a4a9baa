/** What a rejected catalogue is told: whatever the error names is so, and what it
  * calls previous was validated earlier.
  */
module RouteRejections {
  import opened Wrappers
  import opened Locations
  import opened Orders
  import opened RoutePaths
  import opened RouteCatalog
  import opened RouteTheorems

  /** A selected route, with the name of its controller. */
  datatype Claim = Claim(typeName: string, route: Route)

  function ClaimsOf(c: Controller, routes: seq<Route>, selects: Selection): seq<Claim> {
    if routes == [] then []
    else (if selects(c, routes[0]) then [Claim(c.typeName, routes[0])] else []) + ClaimsOf(c, routes[1..], selects)
  }

  /** All selected routes in the order of validation. */
  function Claims(controllers: seq<Controller>, selects: Selection): seq<Claim> {
    if controllers == [] then []
    else ClaimsOf(controllers[0], RoutesOf(controllers[0]), selects) + Claims(controllers[1..], selects)
  }

  // ----- which errors are true -----

  /** Two claims for one method and one set of requests, the previous one earlier. */
  ghost predicate Collide(claims: seq<Claim>, current: Claim, previous: Claim) {
    && (exists i, j :: 0 <= i < j < |claims| && claims[i] == previous && claims[j] == current)
    && current.route.method_ == previous.route.method_
    && SameMatches(current.route.fullPath, previous.route.fullPath)
  }

  ghost predicate BreaksPath(r: Route, error: PathError) {
    || (!ValidPath(r.prefix, true) && PathErrorIsTrue(r.prefix, true, error))
    || (!ValidPath(r.path, false) && PathErrorIsTrue(r.path, false, error))
    || (!ValidPath(r.fullPath, false) && PathErrorIsTrue(r.fullPath, false, error))
  }

  ghost predicate IsClaimed(claims: seq<Claim>, r: Route) {
    exists claim :: claim in claims && claim.route == r
  }

  ghost predicate RouteErrorIsTrue(error: CatalogError, claims: seq<Claim>) {
    match error
    case InvalidPath(r, e) => IsClaimed(claims, r) && BreaksPath(r, e)
    case JoinMismatch(r) => IsClaimed(claims, r) && r.fullPath != CanonicalJoin(r.prefix, r.path)
    case NoLocation =>
      exists claim :: claim in claims
        && (claim.route.location.file == "" || claim.route.location.line == 0 || claim.route.location.column == 0)
    case Conflict(typeName, r, previousTypeName, previous) =>
      Collide(claims, Claim(typeName, r), Claim(previousTypeName, previous))
    case _ => false
  }

  ghost predicate ContractErrorIsTrue(error: CatalogError, c: Controller) {
    match error
    case NoContracts(named) => named == c && c.contracts == []
    case EmptyContractName(named) => named == c && exists k :: k in c.contracts && k.traitName == ""
    case EmptyContract(k) => k in c.contracts && k.routes == []
    case DuplicateContract(k) =>
      exists a, b :: 0 <= a < b < |c.contracts| && c.contracts[b] == k && c.contracts[a].traitName == k.traitName
    case _ => false
  }

  /** What is said of controller `c`, when `previous` were validated before it. */
  ghost predicate ControllerErrorIsTrue(error: CatalogError, c: Controller, previous: seq<Controller>) {
    match error
    case EmptyTypeName => c.typeName == ""
    case DuplicateTypeId(current, other) => current == c && other in previous && other.typeId == c.typeId
    case DuplicateTypeName(current, other) => current == c && other in previous && other.typeName == c.typeName
    case NoRegistrar(named) => named == c && c.registrar.None?
    case _ => ContractErrorIsTrue(error, c)
  }

  ghost predicate ErrorIsTrue(error: CatalogError, controllers: seq<Controller>, selects: Selection) {
    || (exists j: nat :: j < |controllers| && ControllerErrorIsTrue(error, controllers[j], controllers[..j]))
    || RouteErrorIsTrue(error, Claims(controllers, selects))
  }

  // ----- routes -----

  /** What has been seen was claimed. */
  ghost predicate SeenWasClaimed(seen: map<Key, Seen>, claims: seq<Claim>) {
    forall k :: k in seen ==> Claim(seen[k].controller, seen[k].route) in claims && KeyOf(seen[k].route) == k
  }

  ghost predicate ClaimsAreRecorded(r: Result<Progress, CatalogError>, claims: seq<Claim>) {
    match r
    case Success(p) => SeenWasClaimed(p.seen, claims)
    case Failure(error) => RouteErrorIsTrue(error, claims)
  }

  lemma CollisionIsTrue(before: seq<Claim>, current: Claim, previous: Claim, after: seq<Claim>)
    requires previous in before && KeyOf(current.route) == KeyOf(previous.route)
    ensures Collide(before + [current] + after, current, previous)
  {
    var claims := before + [current] + after;
    var i :| 0 <= i < |before| && before[i] == previous;
    assert claims[i] == previous && claims[|before|] == current;
    PatternsDecideMatches(current.route.fullPath, previous.route.fullPath);
  }

  lemma RouteIsClaimed(before: seq<Claim>, current: Claim, after: seq<Claim>)
    ensures current in before + [current] + after && IsClaimed(before + [current] + after, current.route)
  {
    assert (before + [current] + after)[|before|] == current;
  }

  lemma CheckRouteIsTrue(r: Route, claims: seq<Claim>)
    requires CheckRoute(r).Some? && IsClaimed(claims, r)
    ensures RouteErrorIsTrue(CheckRoute(r).value, claims)
  {
    var claim :| claim in claims && claim.route == r;
    CheckPathExactly(r.prefix, true);
    CheckPathExactly(r.path, false);
    CheckPathExactly(r.fullPath, false);
    if CheckPath(r.prefix, true).Some? {
      PathErrorHolds(r.prefix, true);
    } else if CheckPath(r.path, false).Some? {
      PathErrorHolds(r.path, false);
    } else if CheckPath(r.fullPath, false).Some? {
      PathErrorHolds(r.fullPath, false);
    }
  }

  lemma {:induction false} RoutesAreTrue(c: Controller, routes: seq<Route>, selects: Selection, p: Progress,
                                         before: seq<Claim>)
    requires SeenWasClaimed(p.seen, before)
    ensures ClaimsAreRecorded(TakeRoutes(c, routes, selects, p), before + ClaimsOf(c, routes, selects))
    decreases |routes|
  {
    if routes == [] {
      assert before + [] == before;
    } else {
      var r, rest := routes[0], ClaimsOf(c, routes[1..], selects);
      if !selects(c, r) {
        RoutesAreTrue(c, routes[1..], selects, p.(routes := p.routes + [Validated(r, false)]), before);
        assert [] + rest == rest;
      } else {
        var claim := Claim(c.typeName, r);
        assert before + ([claim] + rest) == before + [claim] + rest;
        RouteIsClaimed(before, claim, rest);
        if CheckRoute(r).Some? {
          CheckRouteIsTrue(r, before + [claim] + rest);
        } else if KeyOf(r) in p.seen {
          var seen := p.seen[KeyOf(r)];
          CollisionIsTrue(before, claim, Claim(seen.controller, seen.route), rest);
        } else {
          var more := Progress(p.seen[KeyOf(r) := Seen(c.typeName, r)], p.routes + [Validated(r, true)]);
          SeenMore(p.seen, before, claim);
          RoutesAreTrue(c, routes[1..], selects, more, before + [claim]);
        }
      }
    }
  }

  lemma SeenMore(seen: map<Key, Seen>, before: seq<Claim>, claim: Claim)
    requires SeenWasClaimed(seen, before)
    ensures SeenWasClaimed(seen[KeyOf(claim.route) := Seen(claim.typeName, claim.route)], before + [claim])
  {
    assert (before + [claim])[|before|] == claim;
  }

  // ----- controllers -----

  lemma {:induction false} FirstClashIsTrue(c: Controller, previous: seq<Controller>)
    requires FirstClash(c, previous).Some?
    ensures ControllerErrorIsTrue(FirstClash(c, previous).value, c, previous)
  {
    if previous[0].typeId != c.typeId && previous[0].typeName != c.typeName {
      FirstClashIsTrue(c, previous[1..]);
    }
  }

  lemma {:induction false} ContractsAreTrue(c: Controller, k: nat, names: set<string>)
    requires k <= |c.contracts| && forall n :: n in names <==> exists a :: 0 <= a < k && c.contracts[a].traitName == n
    requires CheckContractsFrom(c, c.contracts[k..], names).Some?
    ensures ContractErrorIsTrue(CheckContractsFrom(c, c.contracts[k..], names).value, c)
    decreases |c.contracts| - k
  {
    var rest := c.contracts[k..];
    assert rest != [] && rest[0] == c.contracts[k] && rest[1..] == c.contracts[k + 1..];
    var first := rest[0];
    assert first in c.contracts;
    if first.traitName != "" && first.routes != [] {
      if first.traitName in names {
        var a :| 0 <= a < k && c.contracts[a].traitName == first.traitName;
      } else {
        ContractsAreTrue(c, k + 1, names + {first.traitName});
      }
    }
  }

  lemma CheckControllerIsTrue(c: Controller, previous: seq<Controller>)
    requires CheckController(c, previous).Some?
    ensures ControllerErrorIsTrue(CheckController(c, previous).value, c, previous)
  {
    if CheckIdentity(c, previous).Some? {
      if c.typeName != "" { FirstClashIsTrue(c, previous); }
    } else if CheckContracts(c).Some? && c.contracts != [] {
      assert c.contracts[0..] == c.contracts;
      ContractsAreTrue(c, 0, {});
    }
  }

  lemma RouteErrorStaysTrue(error: CatalogError, claims: seq<Claim>, more: seq<Claim>)
    requires RouteErrorIsTrue(error, claims)
    ensures RouteErrorIsTrue(error, claims + more)
  {
    assert forall i :: 0 <= i < |claims| ==> (claims + more)[i] == claims[i];
    match error
    case Conflict(typeName, r, previousTypeName, previous) =>
      var i, j :| 0 <= i < j < |claims| && claims[i] == Claim(previousTypeName, previous)
               && claims[j] == Claim(typeName, r);
      assert (claims + more)[i] == claims[i] && (claims + more)[j] == claims[j];
    case InvalidPath(r, _) =>
      var claim :| claim in claims && claim.route == r;
      assert claim in claims + more;
    case JoinMismatch(r) =>
      var claim :| claim in claims && claim.route == r;
      assert claim in claims + more;
    case NoLocation =>
      var claim :| claim in claims
        && (claim.route.location.file == "" || claim.route.location.line == 0 || claim.route.location.column == 0);
      assert claim in claims + more;
  }

  /** The error is true of one of the controllers, told apart from `previous` and those before it. */
  ghost predicate SomeControllerErrs(error: CatalogError, controllers: seq<Controller>, previous: seq<Controller>) {
    exists j: nat ::
      j < |controllers| && ControllerErrorIsTrue(error, controllers[j], previous + controllers[..j])
  }

  lemma FirstErrs(error: CatalogError, controllers: seq<Controller>, previous: seq<Controller>)
    requires controllers != [] && ControllerErrorIsTrue(error, controllers[0], previous)
    ensures SomeControllerErrs(error, controllers, previous)
  {
    assert previous + controllers[..0] == previous;
  }

  lemma LaterErrs(error: CatalogError, controllers: seq<Controller>, previous: seq<Controller>)
    requires controllers != [] && SomeControllerErrs(error, controllers[1..], previous + [controllers[0]])
    ensures SomeControllerErrs(error, controllers, previous)
  {
    var c, rest := controllers[0], controllers[1..];
    var j: nat :| j < |rest| && ControllerErrorIsTrue(error, rest[j], previous + [c] + rest[..j]);
    assert previous + [c] + rest[..j] == previous + controllers[..j + 1];
    assert rest[j] == controllers[j + 1];
  }

  /** What the validation of one controller comes to. */
  lemma OneIsTrue(c: Controller, selects: Selection, seen: map<Key, Seen>, before: seq<Claim>)
    requires SeenWasClaimed(seen, before)
    ensures match TakeRoutes(c, RoutesOf(c), selects, Progress(seen, []))
            case Success(p) => SeenWasClaimed(p.seen, before + ClaimsOf(c, RoutesOf(c), selects))
            case Failure(error) => RouteErrorIsTrue(error, before + ClaimsOf(c, RoutesOf(c), selects))
  {
    RoutesAreTrue(c, RoutesOf(c), selects, Progress(seen, []), before);
  }

  /** The rest of the controllers, after `previous` with their claims. */
  lemma {:induction false} ControllersAreTrue(controllers: seq<Controller>, selects: Selection,
                                              previous: seq<Controller>, so: Catalog, before: seq<Claim>)
    requires SeenWasClaimed(so.seen, before)
    requires TakeControllers(controllers, selects, previous, so).Failure?
    ensures var error := TakeControllers(controllers, selects, previous, so).error;
      || SomeControllerErrs(error, controllers, previous)
      || RouteErrorIsTrue(error, before + Claims(controllers, selects))
    decreases |controllers|
  {
    var c, rest := controllers[0], controllers[1..];
    var own, later := ClaimsOf(c, RoutesOf(c), selects), Claims(rest, selects);
    var error := TakeControllers(controllers, selects, previous, so).error;
    assert before + (own + later) == before + own + later;
    if CheckController(c, previous).Some? {
      CheckControllerIsTrue(c, previous);
      FirstErrs(error, controllers, previous);
    } else {
      OneIsTrue(c, selects, so.seen, before);
      var routes := TakeRoutes(c, RoutesOf(c), selects, Progress(so.seen, []));
      if routes.Failure? {
        RouteErrorStaysTrue(error, before + own, later);
      } else {
        var registrar := if c.registrar.Some? then c.registrar.value else 0;
        var next := Catalog(routes.value.seen, so.controllers + [ValidatedController(registrar, routes.value.routes)]);
        ControllersAreTrue(rest, selects, previous + [c], next, before + own);
        if SomeControllerErrs(error, rest, previous + [c]) { LaterErrs(error, controllers, previous); }
      }
    }
  }

  /** A rejected catalogue is told something true, with the roles of the current and
    * the previous declaration as they come in the order of validation.
    */
  lemma RejectionIsTrue(descriptors: seq<Controller>, selects: Selection)
    requires ValidateCatalog(descriptors, selects).Failure?
    ensures ErrorIsTrue(ValidateCatalog(descriptors, selects).error, Sort(ControllerLe, descriptors), selects)
  {
    var sorted := Sort(ControllerLe, descriptors);
    ControllersAreTrue(sorted, selects, [], Catalog(map[], []), []);
    assert [] + Claims(sorted, selects) == Claims(sorted, selects);
    var error := ValidateCatalog(descriptors, selects).error;
    if j: nat :| j < |sorted| && ControllerErrorIsTrue(error, sorted[j], [] + sorted[..j]) {
      assert [] + sorted[..j] == sorted[..j];
    }
  }
}
