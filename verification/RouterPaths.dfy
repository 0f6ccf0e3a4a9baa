/** What the router is handed: whether its paths can stand side by side.
  * Models what `to_axum_path` in crates/mads-common/src/route.rs makes of a whole
  * validated catalogue. A router keeps one path for each set of requests, and
  * merges the methods installed at it.
  */
module RouterPaths {
  import opened Wrappers
  import opened Locations
  import opened Orders
  import opened RoutePaths
  import opened RouteCatalog
  import opened RouteTheorems

  // ----- what a path captures -----

  function CapturesOf(segments: seq<string>): seq<string> {
    if segments == [] then []
    else (if IsParameter(segments[0]) then [segments[0][1..]] else []) + CapturesOf(segments[1..])
  }

  /** The names of the parameters, in order. */
  function Captures(path: string): seq<string> {
    CapturesOf(Split(path))
  }

  lemma SegmentIsRestored(segment: string)
    requires IsParameter(segment)
    ensures segment == ":" + segment[1..]
  {}

  /** Segments are their canonical form and what they capture. */
  lemma {:induction false} CapturesRestore(ps: seq<string>, qs: seq<string>)
    requires CanonicalSegments(ps) == CanonicalSegments(qs) && CapturesOf(ps) == CapturesOf(qs)
    ensures ps == qs
  {
    assert |ps| == |CanonicalSegments(ps)| == |CanonicalSegments(qs)| == |qs|;
    if ps != [] {
      assert CanonicalSegments(ps)[0] == CanonicalSegments(qs)[0];
      SameFirst(ps[0], qs[0], CapturesOf(ps[1..]), CapturesOf(qs[1..]));
      CanonicalTail(ps);
      CanonicalTail(qs);
      CapturesRestore(ps[1..], qs[1..]);
      assert ps == [ps[0]] + ps[1..] && qs == [qs[0]] + qs[1..];
    }
  }

  lemma CanonicalTail(segments: seq<string>)
    requires segments != []
    ensures CanonicalSegments(segments[1..]) == CanonicalSegments(segments)[1..]
  {}

  lemma SameFirst(p: string, q: string, ps: seq<string>, qs: seq<string>)
    requires CanonicalSegment(p) == CanonicalSegment(q)
    requires (if IsParameter(p) then [p[1..]] else []) + ps == (if IsParameter(q) then [q[1..]] else []) + qs
    ensures p == q && ps == qs
  {
    if IsParameter(p) {
      assert ([p[1..]] + ps)[0] == p[1..] && ([p[1..]] + ps)[1..] == ps;
      assert ([q[1..]] + qs)[0] == q[1..] && ([q[1..]] + qs)[1..] == qs;
      SegmentIsRestored(p);
      SegmentIsRestored(q);
    } else {
      assert [] + ps == ps && [] + qs == qs;
    }
  }

  // ----- one router path for each pattern -----

  lemma {:induction false} JoinOfSplit(path: string)
    ensures Join(Split(path)) == path
  {
    if path != "" {
      var tail := Split(path[1..]);
      JoinOfSplit(path[1..]);
      assert path == [path[0]] + path[1..];
      JoinOfPrepend(path[0], tail);
    }
  }

  lemma JoinOfPrepend(c: char, parts: seq<string>)
    requires parts != []
    ensures Join(Prepend(c, parts)) == [c] + Join(parts)
  {
    if c == '/' {
      assert ([""] + parts)[1..] == parts;
      assert "" + "/" + Join(parts) == [c] + Join(parts);
    } else if |parts| > 1 {
      assert ([[c] + parts[0]] + parts[1..])[1..] == parts[1..];
      assert [c] + parts[0] + "/" + Join(parts[1..]) == [c] + (parts[0] + "/" + Join(parts[1..]));
    }
  }

  /** Paths that match the same requests differ at most in the names they capture. */
  lemma CapturesDecide(p: string, q: string)
    requires SameMatches(p, q) && Captures(p) == Captures(q)
    ensures p == q
  {
    PatternsDecideMatches(p, q);
    SplitOfCanonical(p);
    SplitOfCanonical(q);
    CapturesRestore(Split(p), Split(q));
    JoinOfSplit(p);
    JoinOfSplit(q);
  }

  lemma AxumSegmentIsInjective(p: string, q: string)
    requires p == "" || ValidSegment(p)
    requires q == "" || ValidSegment(q)
    requires AxumSegment(p) == AxumSegment(q)
    ensures p == q
  {
    if IsParameter(p) && IsParameter(q) {
      BracedIsInjective(p[1..], q[1..]);
      SegmentIsRestored(p);
      SegmentIsRestored(q);
    }
    assert IsParameter(p) ==> '{' in AxumSegment(p);
    assert IsParameter(q) ==> '{' in AxumSegment(q);
  }

  lemma BracedIsInjective(a: string, b: string)
    requires "{" + a + "}" == "{" + b + "}"
    ensures a == b
  {
    assert ("{" + a + "}")[1..|a| + 1] == a && ("{" + b + "}")[1..|b| + 1] == b;
    assert |"{" + a + "}"| == |"{" + b + "}"|;
  }

  /** No two valid paths become one in the router's notation. */
  lemma ToAxumIsInjective(p: string, q: string)
    requires ValidPath(p, false) && ValidPath(q, false) && ToAxumPath(p) == ToAxumPath(q)
    ensures p == q
  {
    AxumSplits(p);
    AxumSplits(q);
    var ps, qs := Split(p), Split(q);
    assert |ps| == |AxumSegments(ps)| == |AxumSegments(qs)| == |qs|;
    forall i | 0 <= i < |ps| ensures ps[i] == qs[i] {
      assert AxumSegments(ps)[i] == AxumSegments(qs)[i];
      ValidSplit(p, i);
      ValidSplit(q, i);
      AxumSegmentIsInjective(ps[i], qs[i]);
    }
    assert ps == qs;
    JoinOfSplit(p);
    JoinOfSplit(q);
  }

  lemma AxumSplits(path: string)
    requires ValidPath(path, false)
    ensures Split(ToAxumPath(path)) == AxumSegments(Split(path))
  {
    SplitIsSlashless(path);
    forall i | 0 <= i < |Split(path)| ensures '/' !in AxumSegments(Split(path))[i] {
      assert AxumSegments(Split(path))[i] == AxumSegment(Split(path)[i]);
    }
    SplitOfJoin(AxumSegments(Split(path)));
  }

  /** Two router paths for the same requests. */
  ghost predicate RouterAlike(a: string, b: string) {
    forall request :: AxumMatches(a, request) <==> AxumMatches(b, request)
  }

  lemma RouterAlikeExactly(p: string, q: string)
    requires ValidPath(p, false) && ValidPath(q, false)
    ensures RouterAlike(ToAxumPath(p), ToAxumPath(q)) <==> SameMatches(p, q)
  {
    forall request
      ensures AxumMatches(ToAxumPath(p), request) <==> Matches(p, request)
      ensures AxumMatches(ToAxumPath(q), request) <==> Matches(q, request)
    {
      AxumKeepsMatches(p, request);
      AxumKeepsMatches(q, request);
    }
  }

  // ----- what a catalogue hands over -----

  function PathsOf(routes: seq<ValidatedRoute>): seq<string> {
    if routes == [] then []
    else (if routes[0].axumPath.Some? then [routes[0].axumPath.value] else []) + PathsOf(routes[1..])
  }

  /** All router paths handed over. */
  function HandedPaths(controllers: seq<ValidatedController>): seq<string> {
    if controllers == [] then [] else PathsOf(controllers[0].routes) + HandedPaths(controllers[1..])
  }

  function RouterPathsOf(routes: seq<Route>): (r: seq<string>)
    ensures |r| == |routes| && forall i :: 0 <= i < |r| ==> r[i] == ToAxumPath(routes[i].fullPath)
  {
    seq(|routes|, i requires 0 <= i < |routes| => ToAxumPath(routes[i].fullPath))
  }

  lemma RouterPathsConcat(a: seq<Route>, b: seq<Route>)
    ensures RouterPathsOf(a + b) == RouterPathsOf(a) + RouterPathsOf(b)
  {}

  lemma {:induction false} PathsOfHanded(c: Controller, routes: seq<Route>, selects: Selection)
    ensures PathsOf(Handed(c, routes, selects)) == RouterPathsOf(Selected(c, routes, selects))
  {
    if routes != [] {
      PathsOfHanded(c, routes[1..], selects);
      var first, rest := Validated(routes[0], selects(c, routes[0])), Handed(c, routes[1..], selects);
      assert Handed(c, routes, selects) == [first] + rest && ([first] + rest)[1..] == rest;
      RouterPathsConcat(if selects(c, routes[0]) then [routes[0]] else [], Selected(c, routes[1..], selects));
    }
  }

  lemma {:induction false} PathsOfHandedAll(controllers: seq<Controller>, selects: Selection)
    ensures HandedPaths(HandedAll(controllers, selects)) == RouterPathsOf(SelectedRoutes(controllers, selects))
  {
    if controllers != [] {
      var c := controllers[0];
      PathsOfHandedAll(controllers[1..], selects);
      PathsOfHanded(c, RoutesOf(c), selects);
      RouterPathsConcat(Selected(c, RoutesOf(c), selects), SelectedRoutes(controllers[1..], selects));
      HandedPathsCons(controllers, selects);
    }
  }

  lemma HandedPathsCons(controllers: seq<Controller>, selects: Selection)
    requires controllers != []
    ensures HandedPaths(HandedAll(controllers, selects))
         == PathsOf(Handed(controllers[0], RoutesOf(controllers[0]), selects))
            + HandedPaths(HandedAll(controllers[1..], selects))
  {
    var all := HandedAll(controllers, selects);
    assert all[1..] == HandedAll(controllers[1..], selects);
  }

  /** No two of these paths match the same requests, unless they are one. */
  ghost predicate OneForEachPattern(paths: seq<string>) {
    forall a, b | a in paths && b in paths && RouterAlike(a, b) :: a == b
  }

  /** Routes that match the same requests, whatever their methods, capture under the same names. */
  ghost predicate NamesAgree(routes: seq<Route>) {
    forall r, s | r in routes && s in routes && SameMatches(r.fullPath, s.fullPath) ::
      Captures(r.fullPath) == Captures(s.fullPath)
  }

  lemma FullPathIsValid(r: Route)
    requires ValidRoute(r)
    ensures ValidPath(r.fullPath, false)
  {
    JoinIsValid(r.prefix, r.path);
  }

  lemma RouteHasPath(routes: seq<Route>, r: Route)
    requires r in routes
    ensures ToAxumPath(r.fullPath) in RouterPathsOf(routes)
  {
    var i :| 0 <= i < |routes| && routes[i] == r;
    assert RouterPathsOf(routes)[i] == ToAxumPath(r.fullPath);
  }

  lemma PathHasRoute(routes: seq<Route>, path: string) returns (r: Route)
    requires path in RouterPathsOf(routes)
    ensures r in routes && path == ToAxumPath(r.fullPath)
  {
    var i :| 0 <= i < |routes| && RouterPathsOf(routes)[i] == path;
    r := routes[i];
  }

  lemma OneForEachExactly(routes: seq<Route>)
    requires AllValid(routes)
    ensures OneForEachPattern(RouterPathsOf(routes)) <==> NamesAgree(routes)
  {
    if OneForEachPattern(RouterPathsOf(routes)) {
      forall r, s | r in routes && s in routes && SameMatches(r.fullPath, s.fullPath)
        ensures Captures(r.fullPath) == Captures(s.fullPath)
      {
        OnePathOneName(routes, r, s);
      }
    }
    if NamesAgree(routes) {
      forall a, b | a in RouterPathsOf(routes) && b in RouterPathsOf(routes) && RouterAlike(a, b) ensures a == b {
        var r := PathHasRoute(routes, a);
        var s := PathHasRoute(routes, b);
        OneNameOnePath(routes, r, s);
      }
    }
  }

  lemma OnePathOneName(routes: seq<Route>, r: Route, s: Route)
    requires AllValid(routes) && OneForEachPattern(RouterPathsOf(routes))
    requires r in routes && s in routes && SameMatches(r.fullPath, s.fullPath)
    ensures r.fullPath == s.fullPath
  {
    FullPathIsValid(r);
    FullPathIsValid(s);
    RouteHasPath(routes, r);
    RouteHasPath(routes, s);
    RouterAlikeExactly(r.fullPath, s.fullPath);
    ToAxumIsInjective(r.fullPath, s.fullPath);
  }

  lemma OneNameOnePath(routes: seq<Route>, r: Route, s: Route)
    requires AllValid(routes) && NamesAgree(routes) && r in routes && s in routes
    requires RouterAlike(ToAxumPath(r.fullPath), ToAxumPath(s.fullPath))
    ensures r.fullPath == s.fullPath
  {
    FullPathIsValid(r);
    FullPathIsValid(s);
    RouterAlikeExactly(r.fullPath, s.fullPath);
    CapturesDecide(r.fullPath, s.fullPath);
  }

  /** An accepted catalogue hands over one router path for each set of requests if
    * and only if no two selected routes match the same requests under different
    * captured names, whatever their methods.
    */
  lemma InstallsExactly(descriptors: seq<Controller>, selects: Selection)
    requires ValidateCatalog(descriptors, selects).Success?
    ensures OneForEachPattern(HandedPaths(ValidateCatalog(descriptors, selects).value))
       <==> NamesAgree(SelectedRoutes(descriptors, selects))
  {
    var sorted := Sort(ControllerLe, descriptors);
    AcceptedExactly(descriptors, selects);
    PathsOfHandedAll(sorted, selects);
    GatherPermutes(SelectedOf(selects), sorted, descriptors);
    SameElements(SelectedRoutes(sorted, selects), SelectedRoutes(descriptors, selects));
    OneForEachExactly(SelectedRoutes(sorted, selects));
  }

  // ----- an accepted catalogue that cannot be installed -----

  /** One contract with two selected routes of different methods. */
  ghost predicate IsPair(c: Controller, a: Route, b: Route, selects: Selection) {
    && c.typeName != "" && c.registrar.Some?
    && |c.contracts| == 1 && c.contracts[0].traitName != "" && c.contracts[0].routes == [a, b]
    && selects(c, a) && selects(c, b) && a.method_ != b.method_
  }

  lemma GatherOne<T, U>(f: T -> seq<U>, s: seq<T>)
    requires |s| == 1
    ensures Gather(f, s) == f(s[0])
  {
    assert s[1..] == [];
    assert Gather(f, s[1..]) == [];
  }

  lemma PairIsSelected(c: Controller, a: Route, b: Route, selects: Selection)
    requires IsPair(c, a, b, selects)
    ensures SelectedRoutes([c], selects) == [a, b]
  {
    GatherOne((contract: Contract) => contract.routes, c.contracts);
    assert RoutesOf(c) == [a, b];
    assert [a, b][1..] == [b] && [b][1..] == [];
    assert Selected(c, [b], selects) == [b];
    assert Selected(c, [a, b], selects) == [a, b];
    GatherOne(SelectedOf(selects), [c]);
  }

  lemma PairIsOk(a: Route, b: Route)
    requires ValidRoute(a) && ValidRoute(b) && a.method_ != b.method_
    ensures RoutesOk([a, b])
  {
    forall r | r in [a, b] ensures ValidRoute(r) {}
  }

  lemma OneIsOk(c: Controller)
    requires WellDescribed(c)
    ensures ControllersOk([c])
  {
    GatherOne((c: Controller) => [c.typeName], [c]);
    GatherOne((c: Controller) => [c.typeId], [c]);
  }

  lemma PairIsAccepted(c: Controller, a: Route, b: Route, selects: Selection)
    requires IsPair(c, a, b, selects) && ValidRoute(a) && ValidRoute(b)
    ensures ValidateCatalog([c], selects).Success?
  {
    assert ContractsOk(c.contracts);
    OneIsOk(c);
    PairIsSelected(c, a, b, selects);
    PairIsOk(a, b);
    AcceptedExactly([c], selects);
  }

  const HERE := Location("users.rs", 1, 1)

  function Example(method_: HttpMethod, name: string): Route {
    Route(method_, "", "/a/:" + name, "/a/:" + name, "handle", HERE)
  }

  const USERS :=
    Controller("Users", 0, None, [Contract("Routes", [Example(Get, "id"), Example(Post, "name")])], Some(0))

  lemma SplitOfExample(name: string)
    requires '/' !in name
    ensures Split("/a/:" + name) == ["", "a", ":" + name]
  {
    assert "/a/:" + name == "" + "/" + ("a" + "/" + (":" + name));
    SplitPart("", "a" + "/" + (":" + name));
    SplitPart("a", ":" + name);
    SplitLast(":" + name);
  }

  /** A name of small letters. */
  predicate IsSmall(name: string) {
    name != "" && forall c: char | c in name :: 'a' <= c <= 'z'
  }

  lemma SmallIsClean(name: string)
    requires IsSmall(name)
    ensures CleanChars("/a/:" + name) && ValidName(name) && '/' !in name && '{' !in name && '}' !in name
  {
    forall c | c in "/a/:" + name ensures c !in "?#\\%" && !IsControl(c) && !IsWhitespace(c) {
      assert c in "/a/:" || c in name;
    }
    assert name[0] in name && forall c: char | c in name[1..] :: c in name;
  }

  lemma ParameterIsValid(segment: string, name: string)
    requires segment == ":" + name && ValidName(name) && '{' !in name && '}' !in name
    ensures IsParameter(segment) && segment[1..] == name && ValidSegment(segment)
  {}

  lemma ExampleIsValid(method_: HttpMethod, name: string)
    requires IsSmall(name)
    ensures ValidRoute(Example(method_, name))
  {
    SmallIsClean(name);
    SplitOfExample(name);
    var segments := Segments("/a/:" + name);
    assert segments == ["a", ":" + name];
    ParameterIsValid(segments[1], name);
    assert ValidSegment(segments[0]);
  }

  lemma ExampleCaptures(name: string)
    requires '/' !in name
    ensures Captures("/a/:" + name) == [name]
  {
    SplitOfExample(name);
    var p := ":" + name;
    var none: seq<string> := [];
    assert ["", "a", p][1..] == ["a", p] && ["a", p][1..] == [p] && [p][1..] == none;
    assert p[1..] == name && CapturesOf([p]) == [name] + none;
    assert CapturesOf(["a", p]) == none + CapturesOf([p]);
  }

  lemma ExamplesAreAlike(name: string, other: string)
    requires '/' !in name && '/' !in other
    ensures SameMatches("/a/:" + name, "/a/:" + other)
  {
    SplitOfExample(name);
    SplitOfExample(other);
    assert CanonicalSegments(["", "a", ":" + name]) == CanonicalSegments(["", "a", ":" + other]);
    PatternsDecideMatches("/a/:" + name, "/a/:" + other);
  }

  /** GET and POST at one place, captured under two names: accepted, but not one path. */
  lemma AcceptedNotInstallable(selects: Selection)
    requires selects(USERS, Example(Get, "id")) && selects(USERS, Example(Post, "name"))
    ensures ValidateCatalog([USERS], selects).Success?
    ensures !OneForEachPattern(HandedPaths(ValidateCatalog([USERS], selects).value))
  {
    var a, b := Example(Get, "id"), Example(Post, "name");
    ExampleIsValid(Get, "id");
    ExampleIsValid(Post, "name");
    PairIsAccepted(USERS, a, b, selects);
    PairIsSelected(USERS, a, b, selects);
    ExamplesAreAlike("id", "name");
    ExampleCaptures("id");
    ExampleCaptures("name");
    InstallsExactly([USERS], selects);
    NamesDisagree([a, b], a, b);
  }

  lemma NamesDisagree(routes: seq<Route>, a: Route, b: Route)
    requires a in routes && b in routes && SameMatches(a.fullPath, b.fullPath)
    requires Captures(a.fullPath) != Captures(b.fullPath)
    ensures !NamesAgree(routes)
  {}
}
