/** The shortest construction path to a failing provider.
  * Models `consumer_path` and `provider_order` of
  * crates/mads-core/src/builder.rs. A type identifier is a number; a node of
  * the graph is the index of a provider.
  */
module ConsumerPath {
  import opened Wrappers
  import opened Orders
  import opened Graphs
  import opened Locations

  /** `origin` is the rank of the provider's origin. */
  datatype Provider = Provider(typeId: nat, typeName: string, origin: nat, location: Option<Location>)

  datatype Dependency = Dependency(provider: nat, dependency: nat)

  datatype Application = Application(providers: seq<Provider>, dependencies: seq<Dependency>)

  // ----- the order among providers -----

  predicate LocationLe(a: Option<Location>, b: Option<Location>) {
    a.None? || (b.Some? && PlaceLe(a.value, b.value))
  }

  predicate ProviderLe(a: Provider, b: Provider) {
    if a.typeName != b.typeName then StringLe(a.typeName, b.typeName)
    else if a.origin != b.origin then a.origin < b.origin
    else LocationLe(a.location, b.location)
  }

  /** An index out of range comes last, so that this is an order on all numbers. */
  predicate IndexLe(g: Application, i: nat, j: nat) {
    j >= |g.providers| || (i < |g.providers| && ProviderLe(g.providers[i], g.providers[j]))
  }

  lemma ProviderLeIsTotal(a: Provider, b: Provider)
    ensures ProviderLe(a, b) || ProviderLe(b, a)
  {
    StringLeTotal(a.typeName, b.typeName);
    if a.location.Some? && b.location.Some? { PlaceLeIsTotal(a.location.value, b.location.value); }
  }

  lemma ProviderLeIsTransitive(a: Provider, b: Provider, c: Provider)
    requires ProviderLe(a, b) && ProviderLe(b, c)
    ensures ProviderLe(a, c)
  {
    if a.typeName != b.typeName && b.typeName != c.typeName {
      StringLeTransitive(a.typeName, b.typeName, c.typeName);
      if a.typeName == c.typeName { StringLeAntisymmetric(a.typeName, b.typeName); }
    } else if a.typeName == b.typeName == c.typeName && a.origin == b.origin == c.origin && a.location.Some? {
      PlaceLeIsTransitive(a.location.value, b.location.value, c.location.value);
    }
  }

  lemma ProviderLeIsTotalPreorder()
    ensures TotalPreorder(ProviderLe)
  {
    forall a, b ensures ProviderLe(a, b) || ProviderLe(b, a) { ProviderLeIsTotal(a, b); }
    forall a, b, c | ProviderLe(a, b) && ProviderLe(b, c) ensures ProviderLe(a, c) { ProviderLeIsTransitive(a, b, c); }
  }

  lemma IndexLeIsTotalPreorder(g: Application)
    ensures TotalPreorder((i: nat, j: nat) => IndexLe(g, i, j))
  {
    ProviderLeIsTotalPreorder();
  }

  /** Provider indices, stably sorted by `provider_order`. */
  function SortProviders(g: Application, s: seq<nat>): (r: seq<nat>)
    ensures multiset(r) == multiset(s)
    ensures forall j :: j in r <==> j in s
  {
    var r := Sort((i: nat, j: nat) => IndexLe(g, i, j), s);
    SameElements(r, s);
    r
  }

  lemma ProvidersAreSorted(g: Application, s: seq<nat>)
    ensures forall i, j :: 0 <= i < j < |SortProviders(g, s)| ==>
      IndexLe(g, SortProviders(g, s)[i], SortProviders(g, s)[j])
  {
    IndexLeIsTotalPreorder(g);
    SortIsSorted((i: nat, j: nat) => IndexLe(g, i, j), s);
  }

  // ----- the graph -----

  /** The first provider of a type. */
  function Position(providers: seq<Provider>, typeId: nat, from: nat): (r: Option<nat>)
    requires from <= |providers|
    ensures r.Some? ==> from <= r.value < |providers| && providers[r.value].typeId == typeId
    ensures r.None? ==> forall i :: from <= i < |providers| ==> providers[i].typeId != typeId
    decreases |providers| - from
  {
    if from == |providers| then None
    else if providers[from].typeId == typeId then Some(from)
    else Position(providers, typeId, from + 1)
  }

  predicate HasConsumer(g: Application, typeId: nat) {
    exists e :: e in g.dependencies && e.dependency == typeId
  }

  predicate IsRoot(g: Application, i: nat) {
    i < |g.providers| && !HasConsumer(g, g.providers[i].typeId)
  }

  ghost predicate DependsOn(g: Application, i: nat, j: nat) {
    && i < |g.providers| && j < |g.providers|
    && exists e :: e in g.dependencies && e.provider == g.providers[i].typeId
                && Position(g.providers, e.dependency, 0) == Some(j)
  }

  /** A path along dependencies from a provider nobody depends on. */
  ghost predicate IsRootPath(g: Application, path: seq<nat>) {
    && path != []
    && IsRoot(g, path[0])
    && forall i :: 0 <= i < |path| - 1 ==> DependsOn(g, path[i], path[i + 1])
  }

  function Last(path: seq<nat>): nat {
    if path == [] then 0 else path[|path| - 1]
  }

  ghost predicate Reaches(g: Application, path: seq<nat>, typeId: nat) {
    IsRootPath(g, path) && Last(path) < |g.providers| && g.providers[Last(path)].typeId == typeId
  }

  lemma RootPathInRange(g: Application, path: seq<nat>)
    requires IsRootPath(g, path)
    ensures forall i :: 0 <= i < |path| ==> path[i] < |g.providers|
  {
    forall i | 0 <= i < |path| ensures path[i] < |g.providers| {
      if i > 0 { assert DependsOn(g, path[i - 1], path[i - 1 + 1]); }
    }
  }

  function RootsFrom(g: Application, from: nat): (r: seq<nat>)
    requires from <= |g.providers|
    ensures forall i :: i in r <==> from <= i && IsRoot(g, i)
    ensures Distinct(r)
    decreases |g.providers| - from
  {
    if from == |g.providers| then []
    else (if IsRoot(g, from) then [from] else []) + RootsFrom(g, from + 1)
  }

  function Roots(g: Application): (r: seq<nat>)
    ensures forall i :: i in r <==> IsRoot(g, i)
    ensures Distinct(r)
  {
    DistinctPermutation(RootsFrom(g, 0), SortProviders(g, RootsFrom(g, 0)));
    SortProviders(g, RootsFrom(g, 0))
  }

  function NextFrom(g: Application, i: nat, dependencies: seq<Dependency>): (r: seq<nat>)
    requires i < |g.providers|
    ensures forall j :: j in r <==> exists e :: e in dependencies && e.provider == g.providers[i].typeId
                                             && Position(g.providers, e.dependency, 0) == Some(j)
  {
    if dependencies == [] then []
    else
      var e := dependencies[0];
      var position := Position(g.providers, e.dependency, 0);
      (if e.provider == g.providers[i].typeId && position.Some? then [position.value] else [])
      + NextFrom(g, i, dependencies[1..])
  }

  function Next(g: Application, i: nat): (r: seq<nat>)
    requires i < |g.providers|
    ensures forall j :: j in r <==> DependsOn(g, i, j)
  {
    SortProviders(g, NextFrom(g, i, g.dependencies))
  }

  // ----- the order in which paths are tried -----

  /** The position of the first occurrence. */
  function Rank(s: seq<nat>, x: nat): (r: nat)
    ensures r <= |s| && (r < |s| <==> x in s)
    ensures r < |s| ==> s[r] == x
    ensures forall i | 0 <= i < r :: s[i] != x
  {
    if s == [] then 0 else if s[0] == x then 0 else 1 + Rank(s[1..], x)
  }

  /** Which of its alternatives, in sorted order, a path takes at step `k`. */
  function StepRank(g: Application, path: seq<nat>, k: nat): nat
    requires k < |path|
  {
    if k == 0 then Rank(Roots(g), path[0])
    else if path[k - 1] < |g.providers| then Rank(Next(g, path[k - 1]), path[k])
    else 0
  }

  function Code(g: Application, path: seq<nat>): (r: seq<nat>)
    ensures |r| == |path|
  {
    seq(|path|, k requires 0 <= k < |path| => StepRank(g, path, k))
  }

  ghost predicate LessAt(a: seq<nat>, b: seq<nat>, i: nat) {
    i < |a| && i < |b| && a[..i] == b[..i] && a[i] < b[i]
  }

  /** Shorter, or as long and smaller at the first difference. */
  ghost predicate Before(a: seq<nat>, b: seq<nat>) {
    |a| < |b| || (|a| == |b| && exists i: nat :: LessAt(a, b, i))
  }

  ghost predicate AtMost(a: seq<nat>, b: seq<nat>) {
    a == b || Before(a, b)
  }

  lemma BeforeTransitive(a: seq<nat>, b: seq<nat>, c: seq<nat>)
    requires Before(a, b) && Before(b, c)
    ensures Before(a, c)
  {
    if |a| == |b| == |c| {
      var i: nat :| LessAt(a, b, i);
      var j: nat :| LessAt(b, c, j);
      var k: nat := if i < j then i else j;
      assert a[..k] == a[..i][..k] && b[..k] == b[..i][..k] == b[..j][..k] && c[..k] == c[..j][..k];
      if i < j { assert b[i] == b[..j][i] == c[..j][i]; }
      if j < i { assert a[j] == a[..i][j] == b[..i][j]; }
      assert LessAt(a, c, k);
    }
  }

  lemma AtMostTransitive(a: seq<nat>, b: seq<nat>, c: seq<nat>)
    requires AtMost(a, b) && AtMost(b, c)
    ensures AtMost(a, c)
  {
    if a != b && b != c { BeforeTransitive(a, b, c); }
  }

  lemma ExtendBefore(a: seq<nat>, b: seq<nat>, x: nat, y: nat)
    requires Before(a, b)
    ensures Before(a + [x], b + [y])
  {
    if |a| == |b| {
      var i: nat :| LessAt(a, b, i);
      assert (a + [x])[..i] == a[..i] && (b + [y])[..i] == b[..i];
      assert LessAt(a + [x], b + [y], i);
    }
  }

  lemma ExtendSame(a: seq<nat>, x: nat, y: nat)
    requires x < y
    ensures Before(a + [x], a + [y])
  {
    assert (a + [x])[..|a|] == a == (a + [y])[..|a|];
    assert LessAt(a + [x], a + [y], |a|);
  }

  lemma ExtendAtMost(a: seq<nat>, b: seq<nat>, x: nat)
    requires AtMost(a, b)
    ensures AtMost(a + [x], b + [x])
  {
    if a != b { ExtendBefore(a, b, x, x); }
  }

  lemma SameStep(g: Application, path: seq<nat>, v: nat, k: nat)
    requires k < |path|
    ensures StepRank(g, path + [v], k) == StepRank(g, path, k)
  {
    assert (path + [v])[k] == path[k];
    if k > 0 { assert (path + [v])[k - 1] == path[k - 1]; }
  }

  lemma LastStep(g: Application, path: seq<nat>, v: nat)
    requires path != [] && Last(path) < |g.providers|
    ensures StepRank(g, path + [v], |path|) == Rank(Next(g, Last(path)), v)
  {
    assert (path + [v])[|path| - 1] == Last(path);
  }

  lemma CodeAt(g: Application, path: seq<nat>, k: nat)
    requires k < |path|
    ensures Code(g, path)[k] == StepRank(g, path, k)
  {}

  lemma Appended(longer: seq<nat>, s: seq<nat>, x: nat)
    requires |longer| == |s| + 1 && longer[|s|] == x && forall k | 0 <= k < |s| :: longer[k] == s[k]
    ensures longer == s + [x]
  {}

  lemma SameCode(g: Application, path: seq<nat>, v: nat, k: nat)
    requires k < |path|
    ensures Code(g, path + [v])[k] == Code(g, path)[k]
  {
    CodeAt(g, path, k);
    CodeAt(g, path + [v], k);
    SameStep(g, path, v, k);
  }

  lemma CodeMore(g: Application, path: seq<nat>, v: nat)
    requires path != [] && Last(path) < |g.providers|
    ensures Code(g, path + [v]) == Code(g, path) + [Rank(Next(g, Last(path)), v)]
  {
    forall k | 0 <= k < |path| ensures Code(g, path + [v])[k] == Code(g, path)[k] {
      SameCode(g, path, v, k);
    }
    CodeAt(g, path + [v], |path|);
    LastStep(g, path, v);
    Appended(Code(g, path + [v]), Code(g, path), Rank(Next(g, Last(path)), v));
  }

  lemma CodeOfRoot(g: Application, r: nat)
    ensures Code(g, [r]) == [Rank(Roots(g), r)]
  {}

  /** A smaller rank among sorted alternatives is a provider that sorts no later. */
  lemma RanksFollowProviders(g: Application, s: seq<nat>, x: nat, y: nat)
    requires x in s && y in s && Rank(SortProviders(g, s), x) < Rank(SortProviders(g, s), y)
    ensures IndexLe(g, x, y)
  {
    ProvidersAreSorted(g, s);
    var sorted := SortProviders(g, s);
    assert x in sorted && y in sorted;
    assert sorted[Rank(sorted, x)] == x && sorted[Rank(sorted, y)] == y;
  }

  /** No other root path to the type is shorter, or as long and earlier in the order of its steps. */
  ghost predicate IsFirst(g: Application, path: seq<nat>, typeId: nat) {
    Reaches(g, path, typeId)
    && forall other :: Reaches(g, other, typeId) ==> AtMost(Code(g, path), Code(g, other))
  }

  // ----- what comes first, by what providers are -----

  ghost predicate LocationFollows(a: Option<Location>, b: Option<Location>) {
    && (b.None? ==> a.None?)
    && (a.Some? && b.Some? ==>
          && StringLe(a.value.file, b.value.file)
          && (a.value.file == b.value.file ==> a.value.line <= b.value.line)
          && (a.value.file == b.value.file && a.value.line == b.value.line ==> a.value.column <= b.value.column))
  }

  /** `b` comes no earlier than `a`: by name, then by origin, then by location. */
  ghost predicate ProviderFollows(a: Provider, b: Provider) {
    && StringLe(a.typeName, b.typeName)
    && (a.typeName == b.typeName ==> a.origin <= b.origin)
    && (a.typeName == b.typeName && a.origin == b.origin ==> LocationFollows(a.location, b.location))
  }

  lemma OrderedFollow(g: Application, x: nat, y: nat)
    requires IndexLe(g, x, y) && x < |g.providers| && y < |g.providers|
    ensures ProviderFollows(g.providers[x], g.providers[y])
  {
    StringLeReflexive(g.providers[x].typeName);
    if g.providers[x].location.Some? { StringLeReflexive(g.providers[x].location.value.file); }
  }

  function Alternatives(g: Application, path: seq<nat>, k: nat): seq<nat>
    requires k < |path|
  {
    if k == 0 then Roots(g) else if path[k - 1] < |g.providers| then Next(g, path[k - 1]) else []
  }

  lemma StepIsAlternative(g: Application, path: seq<nat>, k: nat)
    requires IsRootPath(g, path) && k < |path|
    ensures path[k] in Alternatives(g, path, k) && path[k] < |g.providers|
    ensures StepRank(g, path, k) == Rank(Alternatives(g, path, k), path[k])
  {
    RootPathInRange(g, path);
    if k > 0 { assert DependsOn(g, path[k - 1], path[k - 1 + 1]); }
  }

  lemma AlternativesFollow(g: Application, path: seq<nat>, k: nat, x: nat, y: nat)
    requires k < |path| && x in Alternatives(g, path, k) && y in Alternatives(g, path, k)
    requires Rank(Alternatives(g, path, k), x) < Rank(Alternatives(g, path, k), y)
    ensures IndexLe(g, x, y)
  {
    if k == 0 {
      RanksFollowProviders(g, RootsFrom(g, 0), x, y);
    } else {
      RanksFollowProviders(g, NextFrom(g, path[k - 1], g.dependencies), x, y);
    }
  }

  lemma SameSteps(g: Application, path: seq<nat>, other: seq<nat>, k: nat, i: nat)
    requires k <= |path| && k <= |other| && path[..k] == other[..k] && i < k
    ensures StepRank(g, path, i) == StepRank(g, other, i)
  {
    assert path[i] == path[..k][i] == other[..k][i] == other[i];
    if i > 0 { assert path[i - 1] == path[..k][i - 1] == other[..k][i - 1] == other[i - 1]; }
  }

  /** Where another root path of the same length first parts from the first one, it
    * goes to a provider that comes no earlier.
    */
  lemma FirstComesFirst(g: Application, path: seq<nat>, other: seq<nat>, typeId: nat, k: nat)
    requires IsFirst(g, path, typeId) && Reaches(g, other, typeId) && |other| == |path|
    requires k < |path| && path[..k] == other[..k] && path[k] != other[k]
    ensures path[k] < |g.providers| && other[k] < |g.providers|
    ensures ProviderFollows(g.providers[path[k]], g.providers[other[k]])
  {
    StepIsAlternative(g, path, k);
    StepIsAlternative(g, other, k);
    assert k > 0 ==> path[k - 1] == path[..k][k - 1] == other[..k][k - 1] == other[k - 1];
    assert Alternatives(g, path, k) == Alternatives(g, other, k);
    CodeAt(g, path, k);
    CodeAt(g, other, k);
    SameCodes(g, path, other, k);
    PartsAt(Code(g, path), Code(g, other), k);
    AlternativesFollow(g, path, k, path[k], other[k]);
    OrderedFollow(g, path[k], other[k]);
  }

  /** The order is decided where two codes first part. */
  lemma PartsAt(a: seq<nat>, b: seq<nat>, k: nat)
    requires |a| == |b| && k < |a| && a[k] != b[k] && (forall i :: 0 <= i < k ==> a[i] == b[i]) && AtMost(a, b)
    ensures a[k] < b[k]
  {
    var i: nat :| LessAt(a, b, i);
    if k < i { SamePrefixAt(a, b, i, k); }
  }

  lemma SameCodes(g: Application, path: seq<nat>, other: seq<nat>, k: nat)
    requires k <= |path| && k <= |other| && path[..k] == other[..k]
    ensures forall i :: 0 <= i < k ==> Code(g, path)[i] == Code(g, other)[i]
  {
    forall i | 0 <= i < k ensures Code(g, path)[i] == Code(g, other)[i] {
      SameSteps(g, path, other, k, i);
      CodeAt(g, path, i);
      CodeAt(g, other, i);
    }
  }

  lemma SamePrefixAt(a: seq<nat>, b: seq<nat>, n: nat, k: nat)
    requires n <= |a| && n <= |b| && a[..n] == b[..n] && k < n
    ensures a[k] == b[k]
  {
    assert a[..n][k] == b[..n][k];
  }

  ghost predicate IsShortest(g: Application, path: seq<nat>, typeId: nat) {
    Reaches(g, path, typeId) && forall other :: Reaches(g, other, typeId) ==> |path| <= |other|
  }

  ghost predicate NothingReaches(g: Application, typeId: nat) {
    forall path :: !Reaches(g, path, typeId)
  }

  lemma FirstIsShortest(g: Application, path: seq<nat>, typeId: nat)
    requires IsFirst(g, path, typeId)
    ensures IsShortest(g, path, typeId)
  {
    forall other | Reaches(g, other, typeId) ensures |path| <= |other| {
      assert AtMost(Code(g, path), Code(g, other));
    }
  }

  // ----- the search -----

  /** Every path found so far is earlier than those found after it, and they end apart. */
  ghost predicate Ordered(g: Application, found: seq<seq<nat>>) {
    forall i, j | 0 <= i < j < |found| ::
      Before(Code(g, found[i]), Code(g, found[j])) && Last(found[i]) != Last(found[j])
  }

  ghost predicate RootPaths(g: Application, found: seq<seq<nat>>) {
    forall i | 0 <= i < |found| :: IsRootPath(g, found[i]) && Last(found[i]) < |g.providers|
  }

  ghost predicate RootsFound(g: Application, found: seq<seq<nat>>) {
    forall r: nat :: IsRoot(g, r) ==> [r] in found
  }

  /** A path to the same end was found that is no later. */
  ghost predicate IsCovered(g: Application, found: seq<seq<nat>>, path: seq<nat>) {
    exists j | 0 <= j < |found| :: Last(found[j]) == Last(path) && AtMost(Code(g, found[j]), Code(g, path))
  }

  /** The dependencies of the first `c` ends were looked at. */
  ghost predicate Expanded(g: Application, found: seq<seq<nat>>, c: nat)
    requires c <= |found|
  {
    forall i, v: nat | 0 <= i < c && DependsOn(g, Last(found[i]), v) :: IsCovered(g, found, found[i] + [v])
  }

  function Front(path: seq<nat>): seq<nat> {
    if path == [] then [] else path[..|path| - 1]
  }

  /** A path is a root or extends one of the first `c`, or the next one by a node in `done`. */
  ghost predicate GrewFrom(found: seq<seq<nat>>, c: nat, done: seq<nat>, path: seq<nat>)
    requires c <= |found|
  {
    || |path| == 1
    || (exists i | 0 <= i < c :: Front(path) == found[i])
    || (c < |found| && Front(path) == found[c] && Last(path) in done)
  }

  ghost predicate Grew(found: seq<seq<nat>>, c: nat, done: seq<nat>) {
    c <= |found| && forall j | 0 <= j < |found| :: GrewFrom(found, c, done, found[j])
  }

  ghost predicate EndsIn(found: seq<seq<nat>>, v: nat) {
    exists j | 0 <= j < |found| :: Last(found[j]) == v
  }

  ghost predicate Sees(found: seq<seq<nat>>, visited: set<nat>) {
    forall v: nat :: v in visited <==> EndsIn(found, v)
  }

  /** While the next path is expanded by its dependencies in `done`; `found[c..]` are queued. */
  ghost predicate Expanding(g: Application, found: seq<seq<nat>>, c: nat, done: seq<nat>, visited: set<nat>) {
    && RootPaths(g, found) && Ordered(g, found) && RootsFound(g, found)
    && Grew(found, c, done) && Expanded(g, found, c) && Sees(found, visited)
  }

  // ----- roots -----

  method QueueRoots(g: Application) returns (queue: seq<seq<nat>>, visited: set<nat>)
    ensures Expanding(g, queue, 0, [], visited)
    ensures forall v :: v in visited <==> IsRoot(g, v)
  {
    var roots := Roots(g);
    queue, visited := [], {};
    for k := 0 to |roots|
      invariant |queue| == k && forall i | 0 <= i < k :: queue[i] == [roots[i]]
      invariant forall v :: v in visited <==> v in roots[..k]
    {
      TakeMore(roots, k);
      visited := visited + {roots[k]};
      queue := queue + [[roots[k]]];
    }
    assert roots[..|roots|] == roots;
    RootsAreQueued(g, queue, visited);
  }

  lemma RankInDistinct(s: seq<nat>, i: nat)
    requires Distinct(s) && i < |s|
    ensures Rank(s, s[i]) == i
  {}

  lemma RootsAreQueued(g: Application, queue: seq<seq<nat>>, visited: set<nat>)
    requires |queue| == |Roots(g)| && forall i | 0 <= i < |queue| :: queue[i] == [Roots(g)[i]]
    requires forall v :: v in visited <==> v in Roots(g)
    ensures Expanding(g, queue, 0, [], visited)
  {
    var roots := Roots(g);
    forall i | 0 <= i < |queue| ensures IsRootPath(g, queue[i]) && Last(queue[i]) < |g.providers| {
      assert roots[i] in roots;
    }
    forall i, j | 0 <= i < j < |queue|
      ensures Before(Code(g, queue[i]), Code(g, queue[j])) && Last(queue[i]) != Last(queue[j])
    {
      CodeOfRoot(g, roots[i]);
      CodeOfRoot(g, roots[j]);
      RankInDistinct(roots, i);
      RankInDistinct(roots, j);
      assert LessAt([i], [j], 0);
    }
    forall r: nat | IsRoot(g, r) ensures [r] in queue {
      var i :| 0 <= i < |roots| && roots[i] == r;
      assert queue[i] == [r];
    }
    forall v: nat ensures v in visited <==> EndsIn(queue, v) {
      if v in roots {
        var i :| 0 <= i < |roots| && roots[i] == v;
        assert Last(queue[i]) == v;
      }
    }
  }

  // ----- expanding a path -----

  /** A root path extended by a dependency of its end. */
  lemma ExtendRootPath(g: Application, path: seq<nat>, v: nat)
    requires IsRootPath(g, path) && DependsOn(g, Last(path), v)
    ensures IsRootPath(g, path + [v]) && Last(path + [v]) == v
  {
    var longer := path + [v];
    forall i | 0 <= i < |longer| - 1 ensures DependsOn(g, longer[i], longer[i + 1]) {
      if i < |path| - 1 { assert DependsOn(g, path[i], path[i + 1]); }
    }
  }

  lemma FrontAndLast(path: seq<nat>)
    requires path != []
    ensures path == Front(path) + [Last(path)]
  {}

  lemma LaterParent(g: Application, a: seq<nat>, b: seq<nat>, u: nat, v: nat)
    requires a != [] && b != [] && Last(a) < |g.providers| && Last(b) < |g.providers|
    requires Before(Code(g, a), Code(g, b))
    ensures Before(Code(g, a + [u]), Code(g, b + [v]))
  {
    CodeMore(g, a, u);
    CodeMore(g, b, v);
    ExtendBefore(Code(g, a), Code(g, b), Rank(Next(g, Last(a)), u), Rank(Next(g, Last(b)), v));
  }

  lemma SameParent(g: Application, path: seq<nat>, k: nat, u: nat)
    requires path != [] && Last(path) < |g.providers| && k < |Next(g, Last(path))|
    requires u in Next(g, Last(path))[..k] && Next(g, Last(path))[k] !in Next(g, Last(path))[..k]
    ensures Before(Code(g, path + [u]), Code(g, path + [Next(g, Last(path))[k]]))
  {
    var next := Next(g, Last(path));
    CodeMore(g, path, u);
    CodeMore(g, path, next[k]);
    RankOfNew(next, k);
    RankOfOld(next, k, u);
    ExtendSame(Code(g, path), Rank(next, u), Rank(next, next[k]));
  }

  lemma RootIsBefore(g: Application, p: seq<nat>, path: seq<nat>, v: nat)
    requires |p| == 1 && path != []
    ensures Before(Code(g, p), Code(g, path + [v]))
  {}

  lemma ChildIsBefore(g: Application, a: seq<nat>, path: seq<nat>, p: seq<nat>, v: nat)
    requires p != [] && Front(p) == a && a != [] && path != []
    requires Last(a) < |g.providers| && Last(path) < |g.providers| && Before(Code(g, a), Code(g, path))
    ensures Before(Code(g, p), Code(g, path + [v]))
  {
    FrontAndLast(p);
    LaterParent(g, a, path, Last(p), v);
  }

  lemma SiblingIsBefore(g: Application, path: seq<nat>, k: nat, p: seq<nat>, v: nat)
    requires p != [] && Front(p) == path && path != [] && Last(path) < |g.providers|
    requires k < |Next(g, Last(path))| && v == Next(g, Last(path))[k]
    requires Last(p) in Next(g, Last(path))[..k] && v !in Next(g, Last(path))[..k]
    ensures Before(Code(g, p), Code(g, path + [v]))
  {
    FrontAndLast(p);
    SameParent(g, path, k, Last(p));
  }

  /** Whatever was found is earlier than the next path extended by a new dependency. */
  lemma FoundIsBefore(g: Application, found: seq<seq<nat>>, c: nat, k: nat, j: nat, v: nat)
    requires RootPaths(g, found) && Ordered(g, found) && c < |found| && j < |found|
    requires k < |Next(g, Last(found[c]))| && v == Next(g, Last(found[c]))[k]
    requires GrewFrom(found, c, Next(g, Last(found[c]))[..k], found[j])
    requires v !in Next(g, Last(found[c]))[..k]
    ensures Before(Code(g, found[j]), Code(g, found[c] + [v]))
  {
    if |found[j]| == 1 {
      RootIsBefore(g, found[j], found[c], v);
    } else if i :| 0 <= i < c && Front(found[j]) == found[i] {
      ChildIsBefore(g, found[i], found[c], found[j], v);
    } else {
      SiblingIsBefore(g, found[c], k, found[j], v);
    }
  }

  /** Whatever was found with that end is no later than the next path extended by it. */
  lemma FoundIsNoLater(g: Application, found: seq<seq<nat>>, c: nat, done: seq<nat>, j: nat, v: nat)
    requires RootPaths(g, found) && Ordered(g, found) && c < |found| && j < |found|
    requires GrewFrom(found, c, done, found[j]) && Last(found[j]) == v
    ensures AtMost(Code(g, found[j]), Code(g, found[c] + [v]))
  {
    if |found[j]| == 1 {
      RootIsBefore(g, found[j], found[c], v);
    } else if i :| 0 <= i < c && Front(found[j]) == found[i] {
      ChildIsBefore(g, found[i], found[c], found[j], v);
    } else {
      FrontAndLast(found[j]);
    }
  }

  lemma RankOfNew(s: seq<nat>, k: nat)
    requires k < |s| && s[k] !in s[..k]
    ensures Rank(s, s[k]) == k
  {
    assert forall i | 0 <= i < k :: s[i] in s[..k];
  }

  lemma RankOfOld(s: seq<nat>, k: nat, x: nat)
    requires k <= |s| && x in s[..k]
    ensures Rank(s, x) < k
  {
    var i :| 0 <= i < k && s[i] == x;
  }

  lemma OrderedMore(g: Application, found: seq<seq<nat>>, path: seq<nat>)
    requires Ordered(g, found)
    requires forall i | 0 <= i < |found| :: Before(Code(g, found[i]), Code(g, path)) && Last(found[i]) != Last(path)
    ensures Ordered(g, found + [path])
  {}

  lemma DiscoverOrders(g: Application, found: seq<seq<nat>>, c: nat, k: nat, visited: set<nat>, v: nat)
    requires c < |found| && RootPaths(g, found) && Ordered(g, found) && Sees(found, visited)
    requires k < |Next(g, Last(found[c]))| && v == Next(g, Last(found[c]))[k]
    requires Grew(found, c, Next(g, Last(found[c]))[..k])
    requires v !in visited && v !in Next(g, Last(found[c]))[..k]
    ensures Ordered(g, found + [found[c] + [v]])
  {
    forall i | 0 <= i < |found|
      ensures Before(Code(g, found[i]), Code(g, found[c] + [v])) && Last(found[i]) != v
    {
      FoundIsBefore(g, found, c, k, i, v);
      assert EndsIn(found, Last(found[i]));
    }
    OrderedMore(g, found, found[c] + [v]);
  }

  lemma DiscoverIsRootPath(g: Application, found: seq<seq<nat>>, c: nat, v: nat)
    requires c < |found| && RootPaths(g, found) && v in Next(g, Last(found[c]))
    ensures RootPaths(g, found + [found[c] + [v]])
  {
    ExtendRootPath(g, found[c], v);
  }

  lemma RootsStay(g: Application, found: seq<seq<nat>>, path: seq<nat>)
    requires RootsFound(g, found)
    ensures RootsFound(g, found + [path])
  {
    forall r: nat | IsRoot(g, r) ensures [r] in found + [path] {
      assert [r] in found;
    }
  }

  lemma DiscoverKeeps(g: Application, found: seq<seq<nat>>, c: nat, k: nat, visited: set<nat>, v: nat)
    requires c < |found| && RootPaths(g, found) && k < |Next(g, Last(found[c]))| && v == Next(g, Last(found[c]))[k]
    requires Expanding(g, found, c, Next(g, Last(found[c]))[..k], visited)
    requires v !in visited && v !in Next(g, Last(found[c]))[..k]
    ensures Expanding(g, found + [found[c] + [v]], c, Next(g, Last(found[c]))[..k] + [v], visited + {v})
  {
    var path := found[c] + [v];
    assert v in Next(g, Last(found[c]));
    DiscoverIsRootPath(g, found, c, v);
    DiscoverOrders(g, found, c, k, visited, v);
    RootsStay(g, found, path);
    GrowsMore(found, c, Next(g, Last(found[c]))[..k], v);
    CoveredStays(g, found, found + [path], c);
    SeesMore(found, visited, path);
  }

  lemma GrowsMore(found: seq<seq<nat>>, c: nat, done: seq<nat>, v: nat)
    requires c < |found| && Grew(found, c, done)
    ensures Grew(found + [found[c] + [v]], c, done + [v])
  {
    var more := found + [found[c] + [v]];
    assert Front(found[c] + [v]) == found[c];
    forall j | 0 <= j < |more| ensures GrewFrom(more, c, done + [v], more[j]) {
      if j < |found| {
        assert GrewFrom(found, c, done, found[j]);
        if i :| 0 <= i < c && Front(found[j]) == found[i] { assert more[i] == found[i]; }
      }
    }
  }

  lemma PassKeeps(found: seq<seq<nat>>, c: nat, done: seq<nat>, v: nat)
    requires c < |found| && Grew(found, c, done)
    ensures Grew(found, c, done + [v])
  {
    forall j | 0 <= j < |found| ensures GrewFrom(found, c, done + [v], found[j]) {
      assert GrewFrom(found, c, done, found[j]);
    }
  }

  lemma StillCovered(g: Application, found: seq<seq<nat>>, more: seq<seq<nat>>, path: seq<nat>)
    requires found <= more && IsCovered(g, found, path)
    ensures IsCovered(g, more, path)
  {
    var j :| 0 <= j < |found| && Last(found[j]) == Last(path) && AtMost(Code(g, found[j]), Code(g, path));
    assert more[j] == found[j];
  }

  lemma CoveredStays(g: Application, found: seq<seq<nat>>, more: seq<seq<nat>>, c: nat)
    requires found <= more && c <= |found| && Expanded(g, found, c)
    ensures Expanded(g, more, c)
  {
    forall i, v: nat | 0 <= i < c && DependsOn(g, Last(more[i]), v) ensures IsCovered(g, more, more[i] + [v]) {
      assert more[i] == found[i];
      StillCovered(g, found, more, found[i] + [v]);
    }
  }

  lemma SeesMore(found: seq<seq<nat>>, visited: set<nat>, path: seq<nat>)
    requires Sees(found, visited)
    ensures Sees(found + [path], visited + {Last(path)})
  {
    var more := found + [path];
    forall v: nat ensures EndsIn(more, v) <==> EndsIn(found, v) || v == Last(path) {
      if EndsIn(found, v) {
        var j :| 0 <= j < |found| && Last(found[j]) == v;
        assert more[j] == found[j];
      }
      assert more[|found|] == path;
    }
  }

  /** With all its dependencies looked at, the next path is expanded. */
  lemma ExpandedMore(g: Application, found: seq<seq<nat>>, c: nat, visited: set<nat>)
    requires c < |found| && RootPaths(g, found)
    requires Expanding(g, found, c, Next(g, Last(found[c])), visited)
    requires forall v :: v in Next(g, Last(found[c])) ==> IsCovered(g, found, found[c] + [v])
    ensures Expanding(g, found, c + 1, [], visited)
  {
    var next := Next(g, Last(found[c]));
    forall j | 0 <= j < |found| ensures GrewFrom(found, c + 1, [], found[j]) {
      assert GrewFrom(found, c, next, found[j]);
      if |found[j]| != 1 {
        if i :| 0 <= i < c && Front(found[j]) == found[i] { assert 0 <= i < c + 1; }
        assert exists i | 0 <= i < c + 1 :: Front(found[j]) == found[i];
      }
    }
    forall i, v: nat | 0 <= i < c + 1 && DependsOn(g, Last(found[i]), v) ensures IsCovered(g, found, found[i] + [v]) {
      if i == c { assert v in next; }
    }
  }

  /** The first `k` dependencies of the end of `found[c]` were looked at. */
  ghost predicate DoneCovered(g: Application, found: seq<seq<nat>>, path: seq<nat>, done: seq<nat>, visited: set<nat>) {
    forall v :: v in done ==> v in visited && IsCovered(g, found, path + [v])
  }

  ghost predicate Looking(g: Application, found: seq<seq<nat>>, c: nat, next: seq<nat>, k: nat, visited: set<nat>) {
    && c < |found| && k <= |next|
    && Expanding(g, found, c, next[..k], visited)
    && Last(found[c]) < |g.providers| && next == Next(g, Last(found[c]))
    && DoneCovered(g, found, found[c], next[..k], visited)
  }

  lemma LookingStarts(g: Application, found: seq<seq<nat>>, c: nat, visited: set<nat>)
    requires c < |found| && Expanding(g, found, c, [], visited)
    ensures Last(found[c]) < |g.providers| && Looking(g, found, c, Next(g, Last(found[c])), 0, visited)
  {
    assert Next(g, Last(found[c]))[..0] == [];
  }

  lemma DoneStayCovered(g: Application, found: seq<seq<nat>>, path: seq<nat>, done: seq<nat>, v: nat, visited: set<nat>)
    requires DoneCovered(g, found, path, done, visited)
    ensures DoneCovered(g, found + [path + [v]], path, done + [v], visited + {v})
  {
    NewIsCovered(g, found, path + [v]);
    forall x | x in done ensures IsCovered(g, found + [path + [v]], path + [x]) {
      StillCovered(g, found, found + [path + [v]], path + [x]);
    }
  }

  lemma NotDone(g: Application, found: seq<seq<nat>>, c: nat, next: seq<nat>, k: nat, visited: set<nat>)
    requires Looking(g, found, c, next, k, visited) && k < |next| && next[k] !in visited
    ensures next[k] !in next[..k]
  {}

  lemma LookNew(g: Application, found: seq<seq<nat>>, c: nat, next: seq<nat>, k: nat, visited: set<nat>)
    requires Looking(g, found, c, next, k, visited) && k < |next| && next[k] !in visited
    ensures Looking(g, found + [found[c] + [next[k]]], c, next, k + 1, visited + {next[k]})
  {
    NotDone(g, found, c, next, k, visited);
    DiscoverKeeps(g, found, c, k, visited, next[k]);
    TakeMore(next, k);
    DoneStayCovered(g, found, found[c], next[..k], next[k], visited);
  }

  lemma SeenStayCovered(g: Application, found: seq<seq<nat>>, path: seq<nat>, done: seq<nat>, v: nat, visited: set<nat>)
    requires DoneCovered(g, found, path, done, visited) && v in visited && IsCovered(g, found, path + [v])
    ensures DoneCovered(g, found, path, done + [v], visited)
  {}

  lemma LookOld(g: Application, found: seq<seq<nat>>, c: nat, next: seq<nat>, k: nat, visited: set<nat>)
    requires Looking(g, found, c, next, k, visited) && k < |next| && next[k] in visited
    ensures Looking(g, found, c, next, k + 1, visited)
  {
    TakeMore(next, k);
    SeenIsCovered(g, found, c, k, visited, next[k]);
    PassKeeps(found, c, next[..k], next[k]);
    SeenStayCovered(g, found, found[c], next[..k], next[k], visited);
  }

  lemma LookingEnds(g: Application, found: seq<seq<nat>>, c: nat, next: seq<nat>, visited: set<nat>)
    requires Looking(g, found, c, next, |next|, visited)
    ensures Expanding(g, found, c + 1, [], visited)
  {
    assert next[..|next|] == next;
    ExpandedMore(g, found, c, visited);
  }

  /** What is queued of the paths found, once the first `c` have been taken. */
  ghost predicate Awaits(found: seq<seq<nat>>, c: nat, queue: seq<seq<nat>>) {
    c <= |found| && queue == found[c..]
  }

  lemma TakeNext(found: seq<seq<nat>>, c: nat, queue: seq<seq<nat>>)
    requires Awaits(found, c, queue) && queue != []
    ensures c < |found| && queue[0] == found[c] && Awaits(found, c + 1, queue[1..])
  {}

  /** Queues the dependencies of the end of `path` that were not seen before. */
  method QueueDependencies(g: Application, path: seq<nat>, waiting: seq<seq<nat>>, seen: set<nat>,
                           ghost before: seq<seq<nat>>, ghost c: nat)
    returns (queue: seq<seq<nat>>, visited: set<nat>, ghost found: seq<seq<nat>>)
    requires c < |before| && path == before[c] && Awaits(before, c + 1, waiting)
    requires Expanding(g, before, c, [], seen)
    ensures before <= found && Awaits(found, c + 1, queue) && Expanding(g, found, c + 1, [], visited)
    ensures Last(path) < |g.providers| && forall v :: v in visited <==> v in seen || v in Next(g, Last(path))
  {
    queue, visited, found := waiting, seen, before;
    LookingStarts(g, found, c, visited);
    var next := Next(g, Last(path));
    for k := 0 to |next|
      invariant before <= found && c < |found| && found[c] == path && queue == found[c + 1..]
      invariant Looking(g, found, c, next, k, visited)
      invariant forall v :: v in visited <==> v in seen || v in next[..k]
    {
      TakeMore(next, k);
      QueueMore(found, c, path + [next[k]]);
      if next[k] !in visited {
        LookNew(g, found, c, next, k, visited);
        visited := visited + {next[k]};
        found := found + [path + [next[k]]];
        queue := queue + [path + [next[k]]];
      } else {
        LookOld(g, found, c, next, k, visited);
      }
    }
    assert next[..|next|] == next;
    LookingEnds(g, found, c, next, visited);
  }

  lemma QueueMore(found: seq<seq<nat>>, c: nat, path: seq<nat>)
    requires c < |found|
    ensures (found + [path])[c + 1..] == found[c + 1..] + [path] && (found + [path])[c] == found[c]
    ensures found <= found + [path]
  {}

  lemma NewIsCovered(g: Application, found: seq<seq<nat>>, path: seq<nat>)
    ensures IsCovered(g, found + [path], path)
  {
    assert (found + [path])[|found|] == path;
  }

  lemma SeenIsCovered(g: Application, found: seq<seq<nat>>, c: nat, k: nat, visited: set<nat>, v: nat)
    requires c < |found| && RootPaths(g, found) && k < |Next(g, Last(found[c]))| && v == Next(g, Last(found[c]))[k]
    requires Expanding(g, found, c, Next(g, Last(found[c]))[..k], visited) && v in visited
    ensures IsCovered(g, found, found[c] + [v])
  {
    assert EndsIn(found, v);
    var j :| 0 <= j < |found| && Last(found[j]) == v;
    FoundIsNoLater(g, found, c, Next(g, Last(found[c]))[..k], j, v);
  }

  // ----- what the search has covered -----

  ghost predicate IsAhead(g: Application, found: seq<seq<nat>>, c: nat, path: seq<nat>) {
    c < |found| && AtMost(Code(g, found[c]), Code(g, path))
  }

  /** Every root path is covered, as far as it is not later than the next path. */
  lemma {:induction false} AllCovered(g: Application, found: seq<seq<nat>>, c: nat, visited: set<nat>, path: seq<nat>)
    requires Expanding(g, found, c, [], visited) && IsRootPath(g, path)
    ensures IsCovered(g, found, path) || IsAhead(g, found, c, path)
    decreases |path|
  {
    if |path| == 1 {
      var j :| 0 <= j < |found| && found[j] == [path[0]];
      assert found[j] == path;
    } else {
      var before, v := Front(path), Last(path);
      assert path == before + [v];
      FrontIsRootPath(g, path);
      AllCovered(g, found, c, visited, before);
      if !IsAhead(g, found, c, before) { StepIsCovered(g, found, c, before, v); }
      if IsAhead(g, found, c, before) { AheadOfLonger(g, found, c, before, v); }
    }
  }

  lemma FrontIsRootPath(g: Application, path: seq<nat>)
    requires IsRootPath(g, path) && |path| > 1
    ensures IsRootPath(g, Front(path)) && DependsOn(g, Last(Front(path)), Last(path))
  {
    var before := Front(path);
    forall i | 0 <= i < |before| - 1 ensures DependsOn(g, before[i], before[i + 1]) {
      assert DependsOn(g, path[i], path[i + 1]);
    }
    assert DependsOn(g, path[|path| - 2], path[|path| - 2 + 1]);
  }

  lemma EarlierStep(g: Application, found: seq<seq<nat>>, c: nat, j: nat, path: seq<nat>, v: nat)
    requires c <= |found| && j < c && Expanded(g, found, c) && RootPaths(g, found)
    requires path != [] && Last(found[j]) == Last(path) && DependsOn(g, Last(path), v)
    requires AtMost(Code(g, found[j]), Code(g, path))
    ensures IsCovered(g, found, path + [v])
  {
    CodeMore(g, path, v);
    CodeMore(g, found[j], v);
    ExtendAtMost(Code(g, found[j]), Code(g, path), Rank(Next(g, Last(path)), v));
    assert IsCovered(g, found, found[j] + [v]);
    var i :| 0 <= i < |found| && Last(found[i]) == v && AtMost(Code(g, found[i]), Code(g, found[j] + [v]));
    AtMostTransitive(Code(g, found[i]), Code(g, found[j] + [v]), Code(g, path + [v]));
  }

  lemma LaterIsAhead(g: Application, found: seq<seq<nat>>, c: nat, j: nat, path: seq<nat>)
    requires c <= j < |found| && Ordered(g, found) && AtMost(Code(g, found[j]), Code(g, path))
    ensures IsAhead(g, found, c, path)
  {
    AtMostTransitive(Code(g, found[c]), Code(g, found[j]), Code(g, path));
  }

  lemma StepIsCovered(g: Application, found: seq<seq<nat>>, c: nat, path: seq<nat>, v: nat)
    requires c <= |found| && Expanded(g, found, c) && RootPaths(g, found) && Ordered(g, found)
    requires path != [] && DependsOn(g, Last(path), v) && IsCovered(g, found, path)
    ensures IsCovered(g, found, path + [v]) || IsAhead(g, found, c, path)
  {
    var j :| 0 <= j < |found| && Last(found[j]) == Last(path) && AtMost(Code(g, found[j]), Code(g, path));
    if j < c {
      EarlierStep(g, found, c, j, path, v);
    } else {
      LaterIsAhead(g, found, c, j, path);
    }
  }

  lemma AheadOfLonger(g: Application, found: seq<seq<nat>>, c: nat, path: seq<nat>, v: nat)
    requires IsAhead(g, found, c, path)
    ensures IsAhead(g, found, c, path + [v])
  {
    AtMostTransitive(Code(g, found[c]), Code(g, path), Code(g, path + [v]));
  }

  ghost predicate NotAmong(g: Application, found: seq<seq<nat>>, c: nat, typeId: nat) {
    forall i | 0 <= i < c && i < |found| && Last(found[i]) < |g.providers| ::
      g.providers[Last(found[i])].typeId != typeId
  }

  lemma NotAmongMore(g: Application, before: seq<seq<nat>>, found: seq<seq<nat>>, c: nat, typeId: nat)
    requires before <= found && c < |before| && NotAmong(g, before, c, typeId)
    requires Last(before[c]) < |g.providers| && g.providers[Last(before[c])].typeId != typeId
    ensures NotAmong(g, found, c + 1, typeId)
  {
    assert forall i | 0 <= i <= c :: found[i] == before[i];
  }

  /** Every path to the type is no earlier than the next one. */
  lemma NextIsFirst(g: Application, found: seq<seq<nat>>, c: nat, visited: set<nat>, path: seq<nat>, typeId: nat)
    requires Expanding(g, found, c, [], visited) && NotAmong(g, found, c, typeId) && Reaches(g, path, typeId)
    ensures IsAhead(g, found, c, path)
  {
    AllCovered(g, found, c, visited, path);
    if IsCovered(g, found, path) {
      var j :| 0 <= j < |found| && Last(found[j]) == Last(path) && AtMost(Code(g, found[j]), Code(g, path));
      LaterIsAhead(g, found, c, j, path);
    }
  }

  lemma FirstFound(g: Application, found: seq<seq<nat>>, c: nat, visited: set<nat>, typeId: nat)
    requires c < |found| && Expanding(g, found, c, [], visited) && NotAmong(g, found, c, typeId)
    requires Reaches(g, found[c], typeId)
    ensures IsFirst(g, found[c], typeId)
  {
    forall other | Reaches(g, other, typeId) ensures AtMost(Code(g, found[c]), Code(g, other)) {
      NextIsFirst(g, found, c, visited, other, typeId);
    }
  }

  lemma NothingFound(g: Application, found: seq<seq<nat>>, visited: set<nat>, typeId: nat)
    requires Expanding(g, found, |found|, [], visited) && NotAmong(g, found, |found|, typeId)
    ensures NothingReaches(g, typeId)
  {
    forall path | Reaches(g, path, typeId) ensures false {
      NextIsFirst(g, found, |found|, visited, path, typeId);
    }
  }

  lemma {:induction false} ProcessedFits(processed: set<nat>, n: nat)
    requires forall v :: v in processed ==> v < n
    ensures |processed| <= n
  {
    if n > 0 {
      ProcessedFits(processed - {n - 1}, n - 1);
      assert |processed| <= |processed - {n - 1}| + 1;
    } else {
      assert processed == {};
    }
  }

  lemma FoundFits(g: Application, found: seq<seq<nat>>)
    requires RootPaths(g, found) && Ordered(g, found)
    ensures |found| <= |g.providers|
  {
    var ends := seq(|found|, i requires 0 <= i < |found| => Last(found[i]));
    var nodes := set v | v in ends;
    DistinctFits(ends, nodes);
    ProcessedFits(nodes, |g.providers|);
  }

  /** The node indices of the path, if there is one. */
  method FindConsumerPath(g: Application, failing: nat) returns (r: Option<seq<nat>>)
    ensures r.Some? ==> HasConsumer(g, failing) && IsFirst(g, r.value, failing)
    ensures r.None? ==> !HasConsumer(g, failing) || NothingReaches(g, failing)
  {
    if !HasConsumer(g, failing) {
      return None;
    }
    var queue, visited := QueueRoots(g);
    ghost var found := queue;
    ghost var c: nat := 0;
    while queue != []
      invariant Awaits(found, c, queue) && Expanding(g, found, c, [], visited) && NotAmong(g, found, c, failing)
      decreases |g.providers| - c
    {
      var path := queue[0];
      FoundFits(g, found);
      TakeNext(found, c, queue);
      if g.providers[Last(path)].typeId == failing {
        FirstFound(g, found, c, visited, failing);
        return Some(path);
      }
      ghost var before := found;
      queue, visited, found := QueueDependencies(g, path, queue[1..], visited, found, c);
      NotAmongMore(g, before, found, c, failing);
      c := c + 1;
    }
    NothingFound(g, found, visited, failing);
    return None;
  }

  /** The names along the path, as the diagnostic shows them. */
  function Render(g: Application, path: seq<nat>): string
    requires forall i :: 0 <= i < |path| ==> path[i] < |g.providers|
  {
    if path == [] then ""
    else if |path| == 1 then g.providers[path[0]].typeName
    else g.providers[path[0]].typeName + " -> " + Render(g, path[1..])
  }

  ghost predicate InRange(g: Application, path: seq<nat>) {
    forall i :: 0 <= i < |path| ==> path[i] < |g.providers|
  }

  /** The text can be cut at any step: what stands before comes first, then an arrow. */
  lemma {:induction false} RenderCuts(g: Application, path: seq<nat>, k: nat)
    requires InRange(g, path) && 0 < k < |path|
    ensures Render(g, path) == Render(g, path[..k]) + " -> " + Render(g, path[k..])
  {
    if k == 1 {
      assert path[..1] == [path[0]];
    } else {
      RenderCuts(g, path[1..], k - 1);
      assert path[1..][..k - 1] == path[..k][1..] && path[1..][k - 1..] == path[k..];
      var first, middle, last := g.providers[path[0]].typeName, Render(g, path[..k][1..]), Render(g, path[k..]);
      assert first + " -> " + (middle + " -> " + last) == (first + " -> " + middle) + " -> " + last;
    }
  }

  /** The text begins with the name of the root and ends with that of the last provider. */
  lemma RenderNames(g: Application, path: seq<nat>)
    requires InRange(g, path) && path != []
    ensures |path| == 1 ==> Render(g, path) == g.providers[path[0]].typeName
    ensures |path| > 1 ==>
      && g.providers[path[0]].typeName + " -> " <= Render(g, path)
      && exists before :: Render(g, path) == before + " -> " + g.providers[Last(path)].typeName
  {
    if |path| > 1 {
      var n := |path| - 1;
      RenderCuts(g, path, n);
      assert path[n..] == [Last(path)];
      assert Render(g, path) == Render(g, path[..n]) + " -> " + g.providers[Last(path)].typeName;
    }
  }

  ghost predicate RendersFirst(g: Application, text: string, failing: nat) {
    exists path :: IsFirst(g, path, failing) && (forall i :: 0 <= i < |path| ==> path[i] < |g.providers|)
                   && text == Render(g, path)
  }

  method ConsumerPath(g: Application, failing: nat) returns (r: Option<string>)
    ensures r.Some? ==> HasConsumer(g, failing) && RendersFirst(g, r.value, failing)
    ensures r.None? ==> !HasConsumer(g, failing) || NothingReaches(g, failing)
    ensures WellFormed(g) && Acyclic(g) ==> (r.Some? <==> HasConsumer(g, failing))
  {
    var path := FindConsumerPath(g, failing);
    if path.None? {
      if WellFormed(g) && Acyclic(g) && HasConsumer(g, failing) { ConsumedIsReached(g, failing); }
      return None;
    }
    RootPathInRange(g, path.value);
    return Some(Render(g, path.value));
  }

  // ----- when a path exists -----

  /** What graph planning guarantees: type identifiers are unique and every edge joins listed providers. */
  ghost predicate WellFormed(g: Application) {
    && (forall i, j :: 0 <= i < j < |g.providers| ==> g.providers[i].typeId != g.providers[j].typeId)
    && (forall e :: e in g.dependencies ==>
          (exists i :: 0 <= i < |g.providers| && g.providers[i].typeId == e.provider)
          && (exists j :: 0 <= j < |g.providers| && g.providers[j].typeId == e.dependency))
  }

  predicate IsNode(g: Application, i: nat) {
    i < |g.providers|
  }

  ghost function Nodes(g: Application): set<nat> {
    set i: nat | i < |g.providers| && IsNode(g, i)
  }

  ghost function Edges(g: Application): set<Edge<nat>> {
    set i: nat, j: nat | i < |g.providers| && j < |g.providers| && DependsOn(g, i, j) :: Edge(i, j)
  }

  ghost predicate Acyclic(g: Application) {
    !HasCycle(Nodes(g), Edges(g))
  }

  /** A chain of dependencies from node `i` that ends at the type. */
  ghost predicate Leads(g: Application, path: seq<nat>, i: nat, typeId: nat) {
    && path != [] && path[0] == i
    && (forall k :: 0 <= k < |path| ==> path[k] < |g.providers|)
    && (forall k :: 0 <= k < |path| - 1 ==> DependsOn(g, path[k], path[k + 1]))
    && g.providers[Last(path)].typeId == typeId
  }

  ghost predicate CanLead(g: Application, i: nat, typeId: nat) {
    exists path :: Leads(g, path, i, typeId)
  }

  lemma ConsumerIsNode(g: Application, j: nat)
    requires WellFormed(g) && j < |g.providers| && HasConsumer(g, g.providers[j].typeId)
    ensures exists i: nat :: DependsOn(g, i, j)
  {
    var e :| e in g.dependencies && e.dependency == g.providers[j].typeId;
    var i :| 0 <= i < |g.providers| && g.providers[i].typeId == e.provider;
    assert Position(g.providers, e.dependency, 0) == Some(j);
    assert DependsOn(g, i, j);
  }

  lemma LeadFurther(g: Application, i: nat, j: nat, typeId: nat)
    requires DependsOn(g, i, j) && CanLead(g, j, typeId)
    ensures CanLead(g, i, typeId)
  {
    var path :| Leads(g, path, j, typeId);
    var longer := [i] + path;
    forall k | 0 <= k < |longer| - 1 ensures DependsOn(g, longer[k], longer[k + 1]) {
      if k > 0 { assert DependsOn(g, path[k - 1], path[k - 1 + 1]); }
    }
    assert Leads(g, longer, i, typeId);
  }

  lemma LeadingHasPredecessor(g: Application, leading: set<nat>, typeId: nat, i: nat)
    requires WellFormed(g) && IsLeading(g, leading, typeId) && i in leading && !IsRoot(g, i)
    ensures HasPredecessor(i, leading, Edges(g))
  {
    assert IsNode(g, i) && CanLead(g, i, typeId);
    ConsumerIsNode(g, i);
    var p: nat :| DependsOn(g, p, i);
    LeadFurther(g, p, i, typeId);
    assert IsNode(g, p) && p in leading;
    assert Edge(p, i) in Edges(g);
  }

  /** `leading` holds the nodes from which the type can be reached. */
  ghost predicate IsLeading(g: Application, leading: set<nat>, typeId: nat) {
    && (forall i :: i in leading ==> IsNode(g, i) && CanLead(g, i, typeId))
    && (forall i: nat :: IsNode(g, i) && CanLead(g, i, typeId) ==> i in leading)
  }

  lemma LeadingAreNodes(g: Application, leading: set<nat>, typeId: nat)
    requires IsLeading(g, leading, typeId)
    ensures leading <= Nodes(g)
  {
    forall i | i in leading ensures i in Nodes(g) { assert IsNode(g, i); }
  }

  ghost predicate AllPreceded(leading: set<nat>, edges: set<Edge<nat>>) {
    forall i :: i in leading ==> HasPredecessor(i, leading, edges)
  }

  lemma AllHavePredecessors(g: Application, leading: set<nat>, typeId: nat)
    requires WellFormed(g) && IsLeading(g, leading, typeId)
    requires forall i :: i in leading ==> !IsRoot(g, i)
    ensures AllPreceded(leading, Edges(g))
  {
    forall i | i in leading ensures HasPredecessor(i, leading, Edges(g)) {
      LeadingHasPredecessor(g, leading, typeId, i);
    }
  }

  lemma StuckNodesHaveCycle(leading: set<nat>, nodes: set<nat>, edges: set<Edge<nat>>)
    requires leading != {} && leading <= nodes && AllPreceded(leading, edges)
    ensures HasCycle(nodes, edges)
  {
    StuckHasCycle(leading, edges);
    CycleStays(leading, nodes, edges);
  }

  /** Were no node that leads to the type a root, going back would never end. */
  lemma NoRootHasCycle(g: Application, leading: set<nat>, typeId: nat)
    requires WellFormed(g) && leading != {} && IsLeading(g, leading, typeId)
    requires forall i :: i in leading ==> !IsRoot(g, i)
    ensures HasCycle(Nodes(g), Edges(g))
  {
    AllHavePredecessors(g, leading, typeId);
    LeadingAreNodes(g, leading, typeId);
    StuckNodesHaveCycle(leading, Nodes(g), Edges(g));
  }

  /** Going back along consumers in an acyclic graph ends at a root. */
  lemma RootLeads(g: Application, j: nat) returns (path: seq<nat>)
    requires WellFormed(g) && Acyclic(g) && IsNode(g, j)
    ensures Reaches(g, path, g.providers[j].typeId)
  {
    var typeId := g.providers[j].typeId;
    var leading := set i: nat | i < |g.providers| && IsNode(g, i) && CanLead(g, i, typeId);
    assert Leads(g, [j], j, typeId);
    assert j in leading;
    if forall i :: i in leading ==> !IsRoot(g, i) {
      NoRootHasCycle(g, leading, typeId);
      assert false;
    }
    var root :| root in leading && IsRoot(g, root);
    path :| Leads(g, path, root, typeId);
  }

  /** On an acyclic graph a path exists whenever the failing provider has a consumer. */
  lemma ConsumedIsReached(g: Application, failing: nat)
    requires WellFormed(g) && Acyclic(g) && HasConsumer(g, failing)
    ensures !NothingReaches(g, failing)
  {
    var e :| e in g.dependencies && e.dependency == failing;
    var j :| 0 <= j < |g.providers| && g.providers[j].typeId == e.dependency;
    var path := RootLeads(g, j);
  }
}
