/** The module tree of the inspection report.
  * Models `render_modules` and `render_imports` of crates/mads-cli/src/render.rs
  * as the sequence of modules and import edges they write.
  */
module ModuleTree {
  import opened Wrappers
  import opened Orders

  datatype Import = Import(importer: string, imported: string)

  /** What is written: the root, an import with the depth of its indentation, or a
    * module on a line of its own.
    */
  datatype Line =
    | RootLine(root: string)
    | ImportLine(edge: Import, depth: nat)
    | ModuleLine(name: string)
    | NoneLine

  datatype Report = Report(rootModule: Option<string>, modules: seq<string>, imports: seq<Import>)

  // ----- sorting and removing repetitions -----

  ghost predicate Ascending(s: seq<string>) {
    Sorted(StringLe, s) && Distinct(s)
  }

  /** `sort` and `dedup`: the same names in strictly ascending order. */
  function SortedNames(names: seq<string>): (r: seq<string>)
    ensures Ascending(r)
    ensures forall x :: x in r <==> x in names
  {
    StringLeIsTotalOrder();
    SortDedupCorrect(StringLe, names);
    SortDedup(StringLe, names)
  }

  // ----- the import map -----

  type ImportMap = map<string, seq<string>>

  function Children(imports: ImportMap, m: string): seq<string> {
    if m in imports then imports[m] else []
  }

  /** `imports` lists, per importer, its distinct imports in ascending order. */
  ghost predicate IsImportMap(imports: ImportMap, edges: seq<Import>) {
    && (forall m :: m in imports ==> Ascending(imports[m]))
    && (forall m, c :: c in Children(imports, m) <==> Import(m, c) in edges)
  }

  method CollectImports(edges: seq<Import>) returns (imports: ImportMap)
    ensures IsImportMap(imports, edges)
  {
    imports := map[];
    for i := 0 to |edges|
      invariant forall m, c :: c in Children(imports, m) <==> Import(m, c) in edges[..i]
    {
      var e := edges[i];
      TakeMore(edges, i);
      ghost var before := imports;
      imports := imports[e.importer := Children(imports, e.importer) + [e.imported]];
      forall m, c ensures c in Children(imports, m) <==> c in Children(before, m) || Import(m, c) == e {}
    }
    assert edges[..|edges|] == edges;
    imports := SortChildren(imports);
  }

  function SortChildren(imports: ImportMap): (r: ImportMap)
    ensures forall m :: m in r ==> Ascending(r[m])
    ensures forall m, c :: c in Children(r, m) <==> c in Children(imports, m)
  {
    map m | m in imports :: SortedNames(imports[m])
  }

  // ----- reachability -----

  ghost predicate IsImportPath(imports: ImportMap, path: seq<string>) {
    path != [] && forall i :: 0 <= i < |path| - 1 ==> path[i + 1] in Children(imports, path[i])
  }

  ghost predicate Reachable(imports: ImportMap, from: string, to: string) {
    exists path :: IsImportPath(imports, path) && path[0] == from && path[|path| - 1] == to
  }

  lemma ReachableSelf(imports: ImportMap, m: string)
    ensures Reachable(imports, m, m)
  {
    assert IsImportPath(imports, [m]) && [m][0] == m && [m][|[m]| - 1] == m;
  }

  lemma ReachableStep(imports: ImportMap, from: string, m: string, c: string)
    requires Reachable(imports, from, m) && c in Children(imports, m)
    ensures Reachable(imports, from, c)
  {
    var path :| IsImportPath(imports, path) && path[0] == from && path[|path| - 1] == m;
    var longer := path + [c];
    assert IsImportPath(imports, longer) && longer[0] == from && longer[|longer| - 1] == c;
  }

  /** A set that holds `from` and all that its members import holds everything reachable. */
  lemma {:induction false} ClosedHoldsPath(imports: ImportMap, closed: set<string>, path: seq<string>, i: nat)
    requires IsImportPath(imports, path) && path[0] in closed && i < |path|
    requires forall m, c :: m in closed && c in Children(imports, m) ==> c in closed
    ensures path[i] in closed
  {
    if i > 0 {
      ClosedHoldsPath(imports, closed, path, i - 1);
      assert path[i - 1 + 1] in Children(imports, path[i - 1]);
    }
  }

  // ----- the walk -----

  /** `lines` are exactly the imports of the modules in `done`, and the first `k` of `module`. */
  ghost predicate Draws(imports: ImportMap, lines: seq<Import>, done: set<string>, module_: string, k: nat)
    requires k <= |Children(imports, module_)|
  {
    && Distinct(lines)
    && forall e :: e in lines <==>
         || (e.importer in done && e.imported in Children(imports, e.importer))
         || (e.importer == module_ && e.imported in Children(imports, module_)[..k])
  }

  /** The imports of one module are drawn in ascending order. */
  ghost predicate InOrder(lines: seq<Import>) {
    forall i, j :: 0 <= i < j < |lines| && lines[i].importer == lines[j].importer ==>
      StringLe(lines[i].imported, lines[j].imported)
  }

  /** Line `j` stands below line `i`: one level deeper, with nothing but deeper
    * lines in between, and `i` is the first line to name the importer.
    */
  ghost predicate Below(lines: seq<Import>, depths: seq<nat>, i: nat, j: nat)
    requires |depths| == |lines|
  {
    && i < j < |lines|
    && depths[j] == depths[i] + 1 && (forall k :: i < k < j ==> depths[i] < depths[k])
    && lines[j].importer == lines[i].imported && (forall k :: 0 <= k < i ==> lines[k].imported != lines[i].imported)
  }

  /** The imports of `root` are drawn at depth `base`; those of any other module
    * stand below the first line that names it.
    */
  ghost predicate Nested(root: string, base: nat, lines: seq<Import>, depths: seq<nat>) {
    |depths| == |lines| && forall j: nat :: j < |lines| ==> NestedAt(root, base, lines, depths, j)
  }

  ghost predicate NestedAt(root: string, base: nat, lines: seq<Import>, depths: seq<nat>, j: nat)
    requires |depths| == |lines| && j < |lines|
  {
    && base <= depths[j]
    && (lines[j].importer == root <==> depths[j] == base)
    && (lines[j].importer != root ==> exists i :: Below(lines, depths, i, j))
  }

  ghost predicate Closed(imports: ImportMap, modules: set<string>, visited: set<string>) {
    forall m, c :: m in modules && c in Children(imports, m) ==> c in visited
  }

  ghost predicate AllReachable(imports: ImportMap, from: string, modules: set<string>) {
    forall m :: m in modules ==> Reachable(imports, from, m)
  }

  /** The walk below `root` while its first `k` children are drawn; `before` were visited earlier. */
  ghost predicate Walking(imports: ImportMap, root: string, base: nat, k: nat, before: set<string>,
                          visited: set<string>, lines: seq<Import>, depths: seq<nat>)
  {
    && k <= |Children(imports, root)|
    && root in before && before <= visited
    && Draws(imports, lines, visited - before, root, k)
    && Closed(imports, visited - before, visited)
    && (forall c :: c in Children(imports, root)[..k] ==> c in visited)
    && AllReachable(imports, root, visited - before)
    && InOrder(lines) && Nested(root, base, lines, depths)
  }

  lemma WalkStarts(imports: ImportMap, root: string, base: nat, before: set<string>)
    requires root in before
    ensures Walking(imports, root, base, 0, before, before, [], [])
  {
    assert before - before == {};
  }

  lemma BelowGrows(lines: seq<Import>, depths: seq<nat>, more: seq<Import>, moreDepths: seq<nat>, i: nat, j: nat)
    requires |depths| == |lines| && |moreDepths| == |more| && Below(lines, depths, i, j)
    ensures Below(lines + more, depths + moreDepths, i, j)
  {}

  lemma NestedAtGrows(root: string, base: nat, lines: seq<Import>, depths: seq<nat>,
                      more: seq<Import>, moreDepths: seq<nat>, j: nat)
    requires |depths| == |lines| && |moreDepths| == |more| && j < |lines| && NestedAt(root, base, lines, depths, j)
    ensures NestedAt(root, base, lines + more, depths + moreDepths, j)
  {
    if lines[j].importer != root {
      var i :| Below(lines, depths, i, j);
      BelowGrows(lines, depths, more, moreDepths, i, j);
    }
  }

  lemma ImportLineNests(root: string, base: nat, lines: seq<Import>, depths: seq<nat>, c: string)
    requires Nested(root, base, lines, depths)
    ensures Nested(root, base, lines + [Import(root, c)], depths + [base])
  {
    forall j: nat | j < |lines| ensures NestedAt(root, base, lines + [Import(root, c)], depths + [base], j) {
      NestedAtGrows(root, base, lines, depths, [Import(root, c)], [base], j);
    }
  }

  lemma ImportLineDraws(imports: ImportMap, root: string, k: nat, done: set<string>, lines: seq<Import>, c: string)
    requires k < |Children(imports, root)| && c == Children(imports, root)[k] && Ascending(Children(imports, root))
    requires Draws(imports, lines, done, root, k) && root !in done && InOrder(lines)
    ensures Draws(imports, lines + [Import(root, c)], done, root, k + 1) && InOrder(lines + [Import(root, c)])
  {
    var children := Children(imports, root);
    TakeMore(children, k);
    assert c !in children[..k];
    assert Import(root, c) !in lines;
    forall i | 0 <= i < |lines| && lines[i].importer == root ensures StringLe(lines[i].imported, c) {
      assert lines[i] in lines;
      var l :| 0 <= l < k && children[l] == lines[i].imported;
    }
  }

  /** Appending what a child's own walk drew. */
  lemma SubtreeDraws(imports: ImportMap, root: string, k: nat, done: set<string>, lines: seq<Import>,
                     child: string, below: set<string>, sublines: seq<Import>)
    requires k <= |Children(imports, root)| && Draws(imports, lines, done, root, k)
    requires Draws(imports, sublines, below, child, |Children(imports, child)|)
    requires done !! below && root !in below && child !in done && child != root && child !in below
    ensures Draws(imports, lines + sublines, done + below + {child}, root, k)
  {
    var children := Children(imports, child);
    assert children[..|children|] == children;
    DistinctConcat(lines, sublines);
  }

  lemma SubtreeInOrder(root: string, lines: seq<Import>, child: string, sublines: seq<Import>)
    requires InOrder(lines) && InOrder(sublines)
    requires forall d, e :: d in lines && e in sublines ==> d.importer != e.importer
    ensures InOrder(lines + sublines)
  {
    forall i, j | 0 <= i < |lines| && 0 <= j < |sublines| ensures lines[i].importer != sublines[j].importer {
      assert lines[i] in lines && sublines[j] in sublines;
    }
  }

  lemma BelowShifts(lines: seq<Import>, depths: seq<nat>, sublines: seq<Import>, subdepths: seq<nat>, i: nat, j: nat)
    requires |depths| == |lines| && |subdepths| == |sublines| && Below(sublines, subdepths, i, j)
    requires forall k :: 0 <= k < |lines| ==> lines[k].imported != sublines[i].imported
    ensures Below(lines + sublines, depths + subdepths, |lines| + i, |lines| + j)
  {
    var n := |lines|;
    forall k | n + i < k < n + j ensures subdepths[i] < (depths + subdepths)[k] {
      assert subdepths[k - n] == (depths + subdepths)[k];
    }
    forall k | 0 <= k < n + i ensures (lines + sublines)[k].imported != sublines[i].imported {
      if k >= n { assert sublines[k - n] == (lines + sublines)[k]; }
    }
  }

  /** The last line opens the subtree of the module it names. */
  lemma SubtreeHangs(base: nat, lines: seq<Import>, depths: seq<nat>, child: string, sublines: seq<Import>,
                     subdepths: seq<nat>, j: nat)
    requires lines != [] && |depths| == |lines| && Nested(child, base + 1, sublines, subdepths)
    requires depths[|lines| - 1] == base && lines[|lines| - 1].imported == child
    requires forall k :: 0 <= k < |lines| - 1 ==> lines[k].imported != child
    requires j < |sublines| && sublines[j].importer == child
    ensures Below(lines + sublines, depths + subdepths, |lines| - 1, |lines| + j)
  {
    var n := |lines|;
    assert NestedAt(child, base + 1, sublines, subdepths, j);
    forall k | n - 1 < k < n + j ensures base < (depths + subdepths)[k] {
      assert NestedAt(child, base + 1, sublines, subdepths, k - n);
      assert subdepths[k - n] == (depths + subdepths)[k];
    }
  }

  /** A line of the subtree, where it stands after the line that opens it. */
  lemma SubtreeNestsAt(root: string, base: nat, lines: seq<Import>, depths: seq<nat>,
                       child: string, sublines: seq<Import>, subdepths: seq<nat>, j: nat)
    requires |depths| == |lines| && Nested(child, base + 1, sublines, subdepths)
    requires lines != [] && lines[|lines| - 1] == Import(root, child) && depths[|lines| - 1] == base
    requires forall k :: 0 <= k < |lines| - 1 ==> lines[k].imported != child
    requires j < |sublines| && sublines[j].importer != root
    requires sublines[j].importer == child || forall k :: 0 <= k < |lines| ==> lines[k].imported != sublines[j].importer
    ensures NestedAt(root, base, lines + sublines, depths + subdepths, |lines| + j)
  {
    assert NestedAt(child, base + 1, sublines, subdepths, j);
    if sublines[j].importer == child {
      SubtreeHangs(base, lines, depths, child, sublines, subdepths, j);
    } else {
      var i :| Below(sublines, subdepths, i, j);
      BelowShifts(lines, depths, sublines, subdepths, i, j);
    }
  }

  lemma SubtreeNests(root: string, base: nat, lines: seq<Import>, depths: seq<nat>,
                     child: string, sublines: seq<Import>, subdepths: seq<nat>)
    requires Nested(root, base, lines, depths) && Nested(child, base + 1, sublines, subdepths)
    requires lines != [] && lines[|lines| - 1] == Import(root, child)
    requires forall k :: 0 <= k < |lines| - 1 ==> lines[k].imported != child
    requires forall d, e :: d in lines && e in sublines && e.importer != child ==> d.imported != e.importer
    requires forall e :: e in sublines ==> e.importer != root
    ensures Nested(root, base, lines + sublines, depths + subdepths)
  {
    assert NestedAt(root, base, lines, depths, |lines| - 1);
    forall j: nat | j < |lines + sublines| ensures NestedAt(root, base, lines + sublines, depths + subdepths, j) {
      if j < |lines| {
        NestedAtGrows(root, base, lines, depths, sublines, subdepths, j);
      } else {
        var l: nat := j - |lines|;
        assert sublines[l] in sublines;
        SubtreeNestsAt(root, base, lines, depths, child, sublines, subdepths, l);
      }
    }
  }

  lemma ReachableThrough(imports: ImportMap, root: string, child: string, below: set<string>)
    requires child in Children(imports, root) && AllReachable(imports, child, below)
    ensures AllReachable(imports, root, below + {child})
  {
    forall m | m in below + {child} ensures Reachable(imports, root, m) {
      if m == child {
        ReachableSelf(imports, root);
        ReachableStep(imports, root, root, child);
      } else {
        var path :| IsImportPath(imports, path) && path[0] == child && path[|path| - 1] == m;
        var longer := [root] + path;
        forall i | 0 <= i < |longer| - 1 ensures longer[i + 1] in Children(imports, longer[i]) {
          if i > 0 { assert path[i - 1 + 1] in Children(imports, path[i - 1]); }
        }
        assert IsImportPath(imports, longer) && longer[0] == root && longer[|longer| - 1] == m;
      }
    }
  }

  /** Whatever has been drawn has been visited. */
  lemma ImportedIsVisited(imports: ImportMap, root: string, k: nat, done: set<string>, visited: set<string>,
                          lines: seq<Import>)
    requires k <= |Children(imports, root)| && Draws(imports, lines, done, root, k) && Closed(imports, done, visited)
    requires forall c :: c in Children(imports, root)[..k] ==> c in visited
    ensures forall e :: e in lines ==> e.imported in visited
  {}

  /** One more child of `root`, visited before. */
  lemma WalkPasses(imports: ImportMap, root: string, base: nat, k: nat, before: set<string>, visited: set<string>,
                   lines: seq<Import>, depths: seq<nat>)
    requires Walking(imports, root, base, k, before, visited, lines, depths)
    requires k < |Children(imports, root)| && Children(imports, root)[k] in visited
    requires Ascending(Children(imports, root))
    ensures Walking(imports, root, base, k + 1, before, visited, lines + [Import(root, Children(imports, root)[k])],
                    depths + [base])
  {
    ImportLineDraws(imports, root, k, visited - before, lines, Children(imports, root)[k]);
    ImportLineNests(root, base, lines, depths, Children(imports, root)[k]);
    TakeMore(Children(imports, root), k);
  }

  lemma DescentDraws(imports: ImportMap, root: string, k: nat, done: set<string>, lines: seq<Import>,
                     child: string, below: set<string>, sublines: seq<Import>)
    requires k < |Children(imports, root)| && child == Children(imports, root)[k] && Ascending(Children(imports, root))
    requires Draws(imports, lines, done, root, k) && InOrder(lines)
    requires Draws(imports, sublines, below, child, |Children(imports, child)|) && InOrder(sublines)
    requires root !in done && done !! below && root !in below && child !in done && child != root && child !in below
    ensures var all := lines + [Import(root, child)] + sublines;
      Draws(imports, all, done + below + {child}, root, k + 1) && InOrder(all)
  {
    var longer := lines + [Import(root, child)];
    ImportLineDraws(imports, root, k, done, lines, child);
    TakeMore(Children(imports, root), k);
    SubtreeDraws(imports, root, k + 1, done, longer, child, below, sublines);
    SubtreeInOrder(root, longer, child, sublines);
  }

  lemma DescentNests(imports: ImportMap, root: string, base: nat, visited: set<string>, lines: seq<Import>,
                     depths: seq<nat>, child: string, below: set<string>, sublines: seq<Import>, subdepths: seq<nat>)
    requires Nested(root, base, lines, depths) && Nested(child, base + 1, sublines, subdepths)
    requires Draws(imports, sublines, below, child, |Children(imports, child)|)
    requires forall e :: e in lines ==> e.imported in visited
    requires root in visited && child !in visited && child !in below && visited !! below
    ensures Nested(root, base, lines + [Import(root, child)] + sublines, depths + [base] + subdepths)
  {
    var longer := lines + [Import(root, child)];
    ImportLineNests(root, base, lines, depths, child);
    forall k | 0 <= k < |longer| - 1 ensures longer[k].imported != child {
      assert lines[k] in lines;
    }
    SubtreeNests(root, base, longer, depths + [base], child, sublines, subdepths);
  }

  lemma DescentCloses(imports: ImportMap, root: string, k: nat, done: set<string>, visited: set<string>,
                      child: string, below: set<string>, after: set<string>)
    requires k < |Children(imports, root)| && child == Children(imports, root)[k]
    requires visited + {child} <= after && Closed(imports, done, visited) && Closed(imports, below, after)
    requires forall c :: c in Children(imports, root)[..k] ==> c in visited
    requires forall c :: c in Children(imports, child) ==> c in after
    ensures Closed(imports, done + below + {child}, after)
    ensures forall c :: c in Children(imports, root)[..k + 1] ==> c in after
  {
    TakeMore(Children(imports, root), k);
  }

  lemma DescentReaches(imports: ImportMap, root: string, done: set<string>, child: string, below: set<string>)
    requires child in Children(imports, root)
    requires AllReachable(imports, root, done) && AllReachable(imports, child, below)
    ensures AllReachable(imports, root, done + below + {child})
  {
    ReachableThrough(imports, root, child, below);
  }

  /** One more child of `root`, not visited before, with its own walk. */
  lemma WalkDescends(imports: ImportMap, root: string, base: nat, k: nat, before: set<string>, visited: set<string>,
                     lines: seq<Import>, depths: seq<nat>,
                     child: string, after: set<string>, sublines: seq<Import>, subdepths: seq<nat>)
    requires Walking(imports, root, base, k, before, visited, lines, depths) && Ascending(Children(imports, root))
    requires k < |Children(imports, root)| && child == Children(imports, root)[k] && child !in visited
    requires Walking(imports, child, base + 1, |Children(imports, child)|, visited + {child}, after,
                     sublines, subdepths)
    ensures Walking(imports, root, base, k + 1, before, after, lines + [Import(root, child)] + sublines,
                    depths + [base] + subdepths)
  {
    var done, below := visited - before, after - (visited + {child});
    TakeAll(Children(imports, child));
    SplitVisited(before, visited, child, after);
    DescentDraws(imports, root, k, done, lines, child, below, sublines);
    ImportedIsVisited(imports, root, k, done, visited, lines);
    DescentNests(imports, root, base, visited, lines, depths, child, below, sublines, subdepths);
    DescentCloses(imports, root, k, done, visited, child, below, after);
    DescentReaches(imports, root, done, child, below);
  }

  lemma SplitVisited(before: set<string>, visited: set<string>, child: string, after: set<string>)
    requires before <= visited && visited + {child} <= after && child !in visited
    ensures after - before == (visited - before) + (after - (visited + {child})) + {child}
  {}

  /** Draws the imports of `root` at the given depth, descending into each module when it is first seen. */
  method RenderImports(root: string, depth: nat, imports: ImportMap, seen: set<string>, ghost universe: set<string>)
    returns (visited: set<string>, lines: seq<Import>, depths: seq<nat>)
    requires root in seen && seen <= universe
    requires forall m :: m in imports ==> Ascending(imports[m])
    requires forall m, c :: c in Children(imports, m) ==> c in universe
    ensures visited <= universe
    ensures Walking(imports, root, depth, |Children(imports, root)|, seen, visited, lines, depths)
    decreases |universe - seen|
  {
    visited, lines, depths := seen, [], [];
    WalkStarts(imports, root, depth, seen);
    var children := Children(imports, root);
    for k := 0 to |children|
      invariant Walking(imports, root, depth, k, seen, visited, lines, depths) && visited <= universe
    {
      var child := children[k];
      assert child in children;
      if child in visited {
        WalkPasses(imports, root, depth, k, seen, visited, lines, depths);
        lines, depths := lines + [Import(root, child)], depths + [depth];
      } else {
        FewerLeft(universe, seen, visited, child);
        var after, sublines, subdepths := RenderImports(child, depth + 1, imports, visited + {child}, universe);
        WalkDescends(imports, root, depth, k, seen, visited, lines, depths, child, after, sublines, subdepths);
        visited, lines, depths := after, lines + [Import(root, child)] + sublines, depths + [depth] + subdepths;
      }
    }
  }

  lemma FewerLeft(universe: set<string>, seen: set<string>, visited: set<string>, child: string)
    requires seen <= visited && child in universe && child !in visited
    ensures |universe - (visited + {child})| < |universe - seen|
  {
    assert universe - (visited + {child}) < universe - seen;
    SmallerSubset(universe - (visited + {child}), universe - seen);
  }

  lemma SmallerSubset<T>(a: set<T>, b: set<T>)
    requires a < b
    ensures |a| < |b|
  {
    assert b == a + (b - a);
  }

  // ----- the whole report -----

  /** A chain of imports, read off the report itself. */
  ghost predicate IsChain(edges: seq<Import>, path: seq<string>) {
    path != [] && forall i :: 0 <= i < |path| - 1 ==> Import(path[i], path[i + 1]) in edges
  }

  ghost predicate Imports(edges: seq<Import>, from: string, to: string) {
    exists path :: IsChain(edges, path) && path[0] == from && path[|path| - 1] == to
  }

  lemma SameChains(imports: ImportMap, edges: seq<Import>, path: seq<string>)
    requires IsImportMap(imports, edges)
    ensures IsImportPath(imports, path) <==> IsChain(edges, path)
  {
    if IsChain(edges, path) {
      forall i | 0 <= i < |path| - 1 ensures path[i + 1] in Children(imports, path[i]) {
        assert Import(path[i], path[i + 1]) in edges;
      }
    }
    if IsImportPath(imports, path) {
      forall i | 0 <= i < |path| - 1 ensures Import(path[i], path[i + 1]) in edges {
        assert path[i + 1] in Children(imports, path[i]);
      }
    }
  }

  lemma ReachableImports(imports: ImportMap, edges: seq<Import>, from: string, to: string)
    requires IsImportMap(imports, edges)
    ensures Reachable(imports, from, to) <==> Imports(edges, from, to)
  {
    if Reachable(imports, from, to) {
      var path :| IsImportPath(imports, path) && path[0] == from && path[|path| - 1] == to;
      SameChains(imports, edges, path);
    }
    if Imports(edges, from, to) {
      var path :| IsChain(edges, path) && path[0] == from && path[|path| - 1] == to;
      SameChains(imports, edges, path);
      assert IsImportPath(imports, path);
    }
  }

  /** The finished walk visited exactly what the root reaches, and drew its imports. */
  ghost predicate IsTree(edges: seq<Import>, root: string, lines: seq<Import>, depths: seq<nat>) {
    && Distinct(lines)
    && (forall e :: e in lines <==> e in edges && Imports(edges, root, e.importer))
    && InOrder(lines) && Nested(root, 0, lines, depths)
  }

  lemma VisitedIsReachable(imports: ImportMap, edges: seq<Import>, root: string, visited: set<string>,
                           lines: seq<Import>, depths: seq<nat>, m: string)
    requires IsImportMap(imports, edges)
    requires Walking(imports, root, 0, |Children(imports, root)|, {root}, visited, lines, depths)
    ensures m in visited <==> Imports(edges, root, m)
  {
    ReachableImports(imports, edges, root, m);
    var children := Children(imports, root);
    assert children[..|children|] == children;
    if m in visited {
      if m == root { ReachableSelf(imports, root); } else { assert m in visited - {root}; }
    }
    if Reachable(imports, root, m) {
      var path :| IsImportPath(imports, path) && path[0] == root && path[|path| - 1] == m;
      forall u, c | u in visited && c in Children(imports, u) ensures c in visited {
        if u != root { assert u in visited - {root}; }
      }
      ClosedHoldsPath(imports, visited, path, |path| - 1);
    }
  }

  lemma WalkIsTree(imports: ImportMap, edges: seq<Import>, root: string, visited: set<string>, lines: seq<Import>,
                   depths: seq<nat>)
    requires IsImportMap(imports, edges)
    requires Walking(imports, root, 0, |Children(imports, root)|, {root}, visited, lines, depths)
    ensures IsTree(edges, root, lines, depths)
  {
    var children := Children(imports, root);
    assert children[..|children|] == children;
    forall e ensures e in lines <==> e in edges && Imports(edges, root, e.importer) {
      VisitedIsReachable(imports, edges, root, visited, lines, depths, e.importer);
      assert e.imported in Children(imports, e.importer) <==> Import(e.importer, e.imported) in edges;
      assert e.importer in visited <==> e.importer == root || e.importer in visited - {root};
    }
  }

  function ImportLines(lines: seq<Import>, depths: seq<nat>): (r: seq<Line>)
    requires |depths| == |lines|
    ensures |r| == |lines| && forall i :: 0 <= i < |r| ==> r[i] == ImportLine(lines[i], depths[i])
  {
    seq(|lines|, i requires 0 <= i < |lines| => ImportLine(lines[i], depths[i]))
  }

  function ModuleLines(names: seq<string>): (r: seq<Line>)
    ensures |r| == |names| && forall i :: 0 <= i < |r| ==> r[i] == ModuleLine(names[i])
  {
    seq(|names|, i requires 0 <= i < |names| => ModuleLine(names[i]))
  }

  function Outside(modules: seq<string>, visited: set<string>): (r: seq<string>)
    ensures forall m :: m in r <==> m in modules && m !in visited
  {
    if modules == [] then []
    else (if modules[0] in visited then [] else [modules[0]]) + Outside(modules[1..], visited)
  }

  /** The tree below the root, and the listed modules outside it. */
  ghost predicate IsDrawing(report: Report, root: string, lines: seq<Import>, depths: seq<nat>, rest: seq<string>) {
    && IsTree(report.imports, root, lines, depths) && Ascending(rest)
    && (forall m :: m in rest <==> m in report.modules && !Imports(report.imports, root, m))
  }

  /** What is written for a report. */
  ghost predicate IsRendering(report: Report, out: seq<Line>) {
    match report.rootModule
    case None =>
      exists names :: Ascending(names) && (forall m :: m in names <==> m in report.modules)
                   && out == if names == [] then [NoneLine] else ModuleLines(names)
    case Some(root) =>
      exists lines, depths, rest ::
        && IsDrawing(report, root, lines, depths, rest)
        && out == [RootLine(root)] + ImportLines(lines, depths) + ModuleLines(rest)
  }

  method RenderModules(report: Report) returns (out: seq<Line>)
    ensures IsRendering(report, out)
  {
    if report.rootModule.None? {
      var names := SortedNames(report.modules);
      return if names == [] then [NoneLine] else ModuleLines(names);
    }
    var root := report.rootModule.value;
    var imports := CollectImports(report.imports);
    ghost var universe := {root} + set e | e in report.imports :: e.imported;
    forall m, c | c in Children(imports, m) ensures c in universe {
      assert Import(m, c) in report.imports && Import(m, c).imported == c;
    }
    var visited, lines, depths := RenderImports(root, 0, imports, {root}, universe);
    WalkIsTree(imports, report.imports, root, visited, lines, depths);
    var rest := SortedNames(Outside(report.modules, visited));
    forall m ensures m in visited <==> Imports(report.imports, root, m) {
      VisitedIsReachable(imports, report.imports, root, visited, lines, depths, m);
    }
    assert IsDrawing(report, root, lines, depths, rest);
    out := [RootLine(root)] + ImportLines(lines, depths) + ModuleLines(rest);
  }

  // ----- the drawing is determined -----

  lemma AscendingIsUnique(a: seq<string>, b: seq<string>)
    requires Ascending(a) && Ascending(b) && forall x :: x in a <==> x in b
    ensures a == b
  {
    StringLeIsTotalOrder();
    DistinctMultiset(a);
    DistinctMultiset(b);
    forall x: string ensures multiset(a)[x] == multiset(b)[x] {
      assert x in multiset(a) <==> x in a;
      assert x in multiset(b) <==> x in b;
    }
    assert multiset(a) == multiset(b);
    SortedIsUnique(StringLe, a, b);
  }

  /** Two trees of one graph that agree on their first `n` lines. */
  ghost predicate Agree(edges: seq<Import>, root: string, a: seq<Import>, aDepths: seq<nat>,
                        b: seq<Import>, bDepths: seq<nat>, n: nat)
  {
    && IsTree(edges, root, a, aDepths) && IsTree(edges, root, b, bDepths)
    && n <= |a| && n <= |b| && a[..n] == b[..n] && aDepths[..n] == bDepths[..n]
  }

  lemma SamePrefix<T>(a: seq<T>, b: seq<T>, n: nat)
    requires n <= |a| && n <= |b| && a[..n] == b[..n]
    ensures forall k :: 0 <= k < n ==> a[k] == b[k]
  {
    forall k | 0 <= k < n ensures a[k] == b[k] {
      assert a[..n][k] == b[..n][k];
    }
  }

  /** What one tree draws next the other has still to draw. */
  lemma StillToDraw(edges: seq<Import>, root: string, a: seq<Import>, aDepths: seq<nat>,
                    b: seq<Import>, bDepths: seq<nat>, n: nat) returns (j: nat)
    requires Agree(edges, root, a, aDepths, b, bDepths, n) && n < |a|
    ensures n <= j < |b| && b[j] == a[n]
  {
    assert a[n] in a;
    assert a[n] in b;
    SamePrefix(a, b, n);
    j :| j < |b| && b[j] == a[n];
  }

  /** What opens the next line of one tree opens that line in the other. */
  lemma OpensInBoth(edges: seq<Import>, root: string, a: seq<Import>, aDepths: seq<nat>,
                    b: seq<Import>, bDepths: seq<nat>, n: nat, i: nat, j: nat)
    requires Agree(edges, root, a, aDepths, b, bDepths, n) && n < |a| && n <= j < |b| && b[j] == a[n]
    requires a[n].importer != root && Below(a, aDepths, i, n)
    ensures Below(b, bDepths, i, j) && bDepths[i] == aDepths[i]
  {
    assert NestedAt(root, 0, b, bDepths, j);
    var l :| Below(b, bDepths, l, j);
    SamePrefix(a, b, n);
    SamePrefix(aDepths, bDepths, n);
    assert l == i;
  }

  lemma NextIsNoDeeper(edges: seq<Import>, root: string, a: seq<Import>, aDepths: seq<nat>,
                       b: seq<Import>, bDepths: seq<nat>, n: nat)
    requires Agree(edges, root, a, aDepths, b, bDepths, n) && n < |a| && n < |b|
    ensures aDepths[n] <= bDepths[n]
  {
    assert NestedAt(root, 0, a, aDepths, n);
    if a[n].importer != root {
      var i :| Below(a, aDepths, i, n);
      var j := StillToDraw(edges, root, a, aDepths, b, bDepths, n);
      OpensInBoth(edges, root, a, aDepths, b, bDepths, n, i, j);
    }
  }

  lemma NextHasSameImporter(edges: seq<Import>, root: string, a: seq<Import>, aDepths: seq<nat>,
                            b: seq<Import>, bDepths: seq<nat>, n: nat)
    requires Agree(edges, root, a, aDepths, b, bDepths, n) && n < |a| && n < |b| && aDepths[n] == bDepths[n]
    ensures a[n].importer == b[n].importer
  {
    assert NestedAt(root, 0, a, aDepths, n) && NestedAt(root, 0, b, bDepths, n);
    if a[n].importer != root {
      var i :| Below(a, aDepths, i, n);
      var l :| Below(b, bDepths, l, n);
      SamePrefix(a, b, n);
      SamePrefix(aDepths, bDepths, n);
      assert i == l;
    }
  }

  lemma NextIsSame(edges: seq<Import>, root: string, a: seq<Import>, aDepths: seq<nat>,
                   b: seq<Import>, bDepths: seq<nat>, n: nat)
    requires Agree(edges, root, a, aDepths, b, bDepths, n) && n < |a| && n < |b|
    ensures Agree(edges, root, a, aDepths, b, bDepths, n + 1)
  {
    NextIsNoDeeper(edges, root, a, aDepths, b, bDepths, n);
    NextIsNoDeeper(edges, root, b, bDepths, a, aDepths, n);
    NextHasSameImporter(edges, root, a, aDepths, b, bDepths, n);
    var j := StillToDraw(edges, root, a, aDepths, b, bDepths, n);
    var l := StillToDraw(edges, root, b, bDepths, a, aDepths, n);
    if j > n && l > n {
      StringLeAntisymmetric(a[n].imported, b[n].imported);
    }
    assert a[n] == b[n];
    TakeMore(a, n);
    TakeMore(b, n);
    TakeMore(aDepths, n);
    TakeMore(bDepths, n);
  }

  lemma {:induction false} TreesAgree(edges: seq<Import>, root: string, a: seq<Import>, aDepths: seq<nat>,
                                      b: seq<Import>, bDepths: seq<nat>, n: nat)
    requires IsTree(edges, root, a, aDepths) && IsTree(edges, root, b, bDepths) && n <= |a| && n <= |b|
    ensures Agree(edges, root, a, aDepths, b, bDepths, n)
  {
    if n > 0 {
      TreesAgree(edges, root, a, aDepths, b, bDepths, n - 1);
      NextIsSame(edges, root, a, aDepths, b, bDepths, n - 1);
    }
  }

  lemma NoTreeIsLonger(edges: seq<Import>, root: string, a: seq<Import>, aDepths: seq<nat>,
                       b: seq<Import>, bDepths: seq<nat>)
    requires IsTree(edges, root, a, aDepths) && IsTree(edges, root, b, bDepths)
    ensures |a| <= |b|
  {
    if |b| < |a| {
      TreesAgree(edges, root, a, aDepths, b, bDepths, |b|);
      var j := StillToDraw(edges, root, a, aDepths, b, bDepths, |b|);
      assert false;
    }
  }

  /** A graph has one tree: the conditions leave no choice of order or depth. */
  lemma TreeIsDetermined(edges: seq<Import>, root: string, a: seq<Import>, aDepths: seq<nat>,
                         b: seq<Import>, bDepths: seq<nat>)
    requires IsTree(edges, root, a, aDepths) && IsTree(edges, root, b, bDepths)
    ensures a == b && aDepths == bDepths
  {
    NoTreeIsLonger(edges, root, a, aDepths, b, bDepths);
    NoTreeIsLonger(edges, root, b, bDepths, a, aDepths);
    TreesAgree(edges, root, a, aDepths, b, bDepths, |a|);
    TakeAll(a);
    TakeAll(b);
    TakeAll(aDepths);
    TakeAll(bDepths);
  }

  /** Two reports with the same root, modules and imports are written alike, in
    * whatever order and however often they list them.
    */
  lemma RenderingIsDetermined(report: Report, other: Report, out: seq<Line>, otherOut: seq<Line>)
    requires IsRendering(report, out) && IsRendering(other, otherOut)
    requires report.rootModule == other.rootModule
    requires forall m :: m in report.modules <==> m in other.modules
    requires forall e :: e in report.imports <==> e in other.imports
    ensures out == otherOut
  {
    match report.rootModule
    case None =>
      var names :| Ascending(names) && (forall m :: m in names <==> m in report.modules)
                && out == if names == [] then [NoneLine] else ModuleLines(names);
      var otherNames :| Ascending(otherNames) && (forall m :: m in otherNames <==> m in other.modules)
                     && otherOut == if otherNames == [] then [NoneLine] else ModuleLines(otherNames);
      AscendingIsUnique(names, otherNames);
    case Some(root) =>
      var lines, depths, rest :| IsDrawing(report, root, lines, depths, rest)
                && out == [RootLine(root)] + ImportLines(lines, depths) + ModuleLines(rest);
      var otherLines, otherDepths, otherRest :| IsDrawing(other, root, otherLines, otherDepths, otherRest)
                && otherOut == [RootLine(root)] + ImportLines(otherLines, otherDepths) + ModuleLines(otherRest);
      SameImportsSameDrawing(report, other, root, otherLines, otherDepths, otherRest);
      TreeIsDetermined(report.imports, root, lines, depths, otherLines, otherDepths);
      AscendingIsUnique(rest, otherRest);
  }

  lemma SameImportsSameDrawing(report: Report, other: Report, root: string, lines: seq<Import>, depths: seq<nat>,
                               rest: seq<string>)
    requires IsDrawing(other, root, lines, depths, rest)
    requires forall m :: m in report.modules <==> m in other.modules
    requires forall e :: e in report.imports <==> e in other.imports
    ensures IsDrawing(report, root, lines, depths, rest)
  {
    forall m ensures Imports(report.imports, root, m) <==> Imports(other.imports, root, m) {
      SameImports(report.imports, other.imports, root, m);
      SameImports(other.imports, report.imports, root, m);
    }
  }

  lemma SameImports(edges: seq<Import>, others: seq<Import>, from: string, to: string)
    requires forall e :: e in edges ==> e in others
    ensures Imports(edges, from, to) ==> Imports(others, from, to)
  {
    if Imports(edges, from, to) {
      var path :| IsChain(edges, path) && path[0] == from && path[|path| - 1] == to;
      assert IsChain(others, path);
    }
  }

  ghost predicate Mentions(line: Line, m: string) {
    match line
    case RootLine(root) => root == m
    case ImportLine(edge, _) => edge.imported == m
    case ModuleLine(name) => name == m
    case NoneLine => false
  }

  lemma ReachedIsImported(edges: seq<Import>, root: string, lines: seq<Import>, depths: seq<nat>, m: string)
    requires IsTree(edges, root, lines, depths) && Imports(edges, root, m) && m != root
    ensures exists i :: 0 <= i < |lines| && lines[i].imported == m
  {
    var path :| IsChain(edges, path) && path[0] == root && path[|path| - 1] == m;
    var n := |path| - 1;
    assert Import(path[n - 1], path[n - 1 + 1]) in edges;
    var shorter := path[..n];
    assert IsChain(edges, shorter) && shorter[0] == root && shorter[|shorter| - 1] == path[n - 1] by {
      forall i | 0 <= i < |shorter| - 1 ensures Import(shorter[i], shorter[i + 1]) in edges {
        assert Import(path[i], path[i + 1]) in edges;
      }
    }
    assert Import(path[n - 1], m) in lines;
  }

  ghost predicate Names(out: seq<Line>, m: string) {
    exists i :: 0 <= i < |out| && Mentions(out[i], m)
  }

  lemma ImportNames(before: seq<Line>, lines: seq<Import>, depths: seq<nat>, after: seq<Line>, m: string)
    requires |depths| == |lines| && exists i :: 0 <= i < |lines| && lines[i].imported == m
    ensures Names(before + ImportLines(lines, depths) + after, m)
  {
    var i :| 0 <= i < |lines| && lines[i].imported == m;
    var out := before + ImportLines(lines, depths) + after;
    assert out[|before| + i] == ImportLines(lines, depths)[i];
    assert Mentions(out[|before| + i], m);
  }

  lemma ModuleNames(before: seq<Line>, rest: seq<string>, m: string)
    requires m in rest
    ensures Names(before + ModuleLines(rest), m)
  {
    var i :| 0 <= i < |rest| && rest[i] == m;
    var out := before + ModuleLines(rest);
    assert out[|before| + i] == ModuleLines(rest)[i];
    assert Mentions(out[|before| + i], m);
  }

  /** Every listed module is named at least once. */
  lemma EveryModuleIsNamed(report: Report, out: seq<Line>, m: string)
    requires IsRendering(report, out) && m in report.modules
    ensures Names(out, m)
  {
    match report.rootModule
    case None =>
      var names :| Ascending(names) && (forall x :: x in names <==> x in report.modules)
                && out == if names == [] then [NoneLine] else ModuleLines(names);
      ModuleNames([], names, m);
      assert [] + ModuleLines(names) == ModuleLines(names);
    case Some(root) =>
      var lines, depths, rest :|
        && IsDrawing(report, root, lines, depths, rest)
        && out == [RootLine(root)] + ImportLines(lines, depths) + ModuleLines(rest);
      if m == root {
        assert Mentions(out[0], m);
      } else if Imports(report.imports, root, m) {
        ReachedIsImported(report.imports, root, lines, depths, m);
        ImportNames([RootLine(root)], lines, depths, ModuleLines(rest), m);
      } else {
        ModuleNames([RootLine(root)] + ImportLines(lines, depths), rest, m);
      }
  }
}
