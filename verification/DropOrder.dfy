/** The order in which dropped tables leave the schema.
  * Models `order_dropped_tables` of crates/mads-cli/src/database/diff.rs.
  *
  * An edge stands for one or more foreign keys from a
  * child to a parent; a child has to be dropped before its parent.
  */
module DropOrder {
  import opened Wrappers
  import opened Orders
  import opened Schema
  import opened Graphs

  datatype ForeignKey = ForeignKey(name: string, child: TableName, parent: TableName)

  datatype DiffError =
    | PrimaryKeyChanged(table: TableName)
    | PrimaryKeyColumnDropped(table: TableName, column: string)
    | RetainedReference(foreignKey: ForeignKey)
    | ForeignKeyCycle

  type Edges = set<Edge<TableName>>

  function DroppedEdges(dropped: set<TableName>, foreignKeys: seq<ForeignKey>): Edges {
    set k | k in foreignKeys && k.child in dropped && k.parent in dropped :: Edge(k.child, k.parent)
  }

  /** `order` lists exactly `nodes`, once each, every child before its parents. */
  ghost predicate IsChildFirst(order: seq<TableName>, nodes: set<TableName>, edges: Edges) {
    && Distinct(order)
    && (forall n :: n in order <==> n in nodes)
    && (forall i, j :: 0 <= i < |order| && 0 <= j < |order| && Edge(order[i], order[j]) in edges ==> i < j)
  }

  /** Lexicographic comparison of two lists of tables. */
  ghost predicate OrderLe(a: seq<TableName>, b: seq<TableName>) {
    if a == [] then true
    else if b == [] then false
    else if a[0] == b[0] then OrderLe(a[1..], b[1..])
    else TableLe(a[0], b[0])
  }

  // ----- specification: always the least table no remaining table refers from -----

  predicate IsReady(n: TableName, remaining: set<TableName>, edges: Edges) {
    n in remaining && forall c | c in remaining :: Edge(c, n) !in edges
  }

  function ReadySet(remaining: set<TableName>, edges: Edges): set<TableName> {
    set n | n in remaining && IsReady(n, remaining, edges)
  }

  /** The table `pop_first` takes. */
  function First(ready: set<TableName>): (n: TableName)
    requires ready != {}
    ensures n in ready && forall y :: y in ready ==> TableLe(n, y)
  {
    TableLeIsTotalOrder();
    Least(TableLe, ready)
  }

  function Greedy(remaining: set<TableName>, edges: Edges): Option<seq<TableName>>
    decreases remaining
  {
    var ready := ReadySet(remaining, edges);
    if remaining == {} then Some([])
    else if ready == {} then None
    else
      var next := First(ready);
      var rest := Greedy(remaining - {next}, edges);
      if rest.None? then None else Some([next] + rest.value)
  }

  lemma {:induction false} GreedyIsChildFirst(nodes: set<TableName>, edges: Edges)
    requires Greedy(nodes, edges).Some?
    ensures IsChildFirst(Greedy(nodes, edges).value, nodes, edges)
    decreases nodes
  {
    if nodes != {} {
      var next := First(ReadySet(nodes, edges));
      GreedyIsChildFirst(nodes - {next}, edges);
      var order, rest := Greedy(nodes, edges).value, Greedy(nodes - {next}, edges).value;
      assert order == [next] + rest;
      forall i, j | 0 <= i < |order| && 0 <= j < |order| && Edge(order[i], order[j]) in edges ensures i < j {
        assert order[i] in nodes;
        if i > 0 && j > 0 { assert Edge(rest[i - 1], rest[j - 1]) in edges; }
      }
    }
  }

  /** No admissible order precedes the greedy one. */
  lemma {:induction false} GreedyIsLeast(nodes: set<TableName>, edges: Edges, other: seq<TableName>)
    requires Greedy(nodes, edges).Some? && IsChildFirst(other, nodes, edges)
    ensures OrderLe(Greedy(nodes, edges).value, other)
    decreases nodes
  {
    if nodes != {} {
      var next := First(ReadySet(nodes, edges));
      assert other != [] by { assert next in other; }
      var first := other[0];
      assert first in ReadySet(nodes, edges) by {
        forall c | c in nodes ensures Edge(c, first) !in edges {
          var i :| 0 <= i < |other| && other[i] == c;
          assert other[0] == first;
        }
      }
      if next == first {
        var rest := other[1..];
        assert forall i :: 0 <= i < |rest| ==> rest[i] == other[i + 1];
        forall n ensures n in rest <==> n in nodes - {next} {
          if n in nodes - {next} {
            var i :| 0 <= i < |other| && other[i] == n;
            assert rest[i - 1] == n;
          }
        }
        GreedyIsLeast(nodes - {next}, edges, rest);
      }
    }
  }

  lemma NoneReadyHasCycle(nodes: set<TableName>, edges: Edges)
    requires nodes != {} && ReadySet(nodes, edges) == {}
    ensures HasCycle(nodes, edges)
  {
    forall n | n in nodes ensures HasPredecessor(n, nodes, edges) {
      assert n !in ReadySet(nodes, edges);
      assert !IsReady(n, nodes, edges);
    }
    StuckHasCycle(nodes, edges);
  }

  lemma {:induction false} GreedyFailsOnCycle(nodes: set<TableName>, edges: Edges)
    requires Greedy(nodes, edges).None?
    ensures HasCycle(nodes, edges)
    decreases nodes
  {
    var ready := ReadySet(nodes, edges);
    if ready == {} {
      NoneReadyHasCycle(nodes, edges);
    } else {
      var next := First(ready);
      GreedyFailsOnCycle(nodes - {next}, edges);
      CycleStays(nodes - {next}, nodes, edges);
    }
  }

  /** Along a walk positions in a child-first order increase. */
  lemma {:induction false} WalkAdvances(order: seq<TableName>, nodes: set<TableName>, edges: Edges,
                                        walk: seq<TableName>) returns (from: nat, to: nat)
    requires IsChildFirst(order, nodes, edges) && IsWalk(walk, nodes, edges) && |walk| >= 2
    ensures from < to < |order| && order[from] == walk[0] && order[to] == walk[|walk| - 1]
  {
    assert walk[0] in order && walk[1] in order;
    from :| 0 <= from < |order| && order[from] == walk[0];
    assert Edge(walk[0], walk[1]) in edges;
    if |walk| == 2 {
      to :| 0 <= to < |order| && order[to] == walk[1];
    } else {
      var next;
      var rest := walk[1..];
      assert forall i :: 0 <= i < |rest| ==> rest[i] == walk[i + 1];
      next, to := WalkAdvances(order, nodes, edges, rest);
    }
  }

  lemma OrderedHasNoCycle(order: seq<TableName>, nodes: set<TableName>, edges: Edges)
    requires IsChildFirst(order, nodes, edges)
    ensures !HasCycle(nodes, edges)
  {
    if HasCycle(nodes, edges) {
      var walk :| IsCycle(walk, nodes, edges);
      var from, to := WalkAdvances(order, nodes, edges, walk);
      assert false;
    }
  }

  /** The sort succeeds exactly on acyclic references, and what it then returns
    * is the least of all admissible orders.
    */
  lemma GreedyCorrect(nodes: set<TableName>, edges: Edges)
    ensures Greedy(nodes, edges).Some? <==> !HasCycle(nodes, edges)
    ensures Greedy(nodes, edges).Some? <==> exists order :: IsChildFirst(order, nodes, edges)
    ensures Greedy(nodes, edges).Some? ==>
              && IsChildFirst(Greedy(nodes, edges).value, nodes, edges)
              && forall other :: IsChildFirst(other, nodes, edges) ==> OrderLe(Greedy(nodes, edges).value, other)
  {
    if Greedy(nodes, edges).Some? {
      GreedyIsChildFirst(nodes, edges);
      OrderedHasNoCycle(Greedy(nodes, edges).value, nodes, edges);
      forall other | IsChildFirst(other, nodes, edges)
        ensures OrderLe(Greedy(nodes, edges).value, other)
      {
        GreedyIsLeast(nodes, edges, other);
      }
    } else {
      GreedyFailsOnCycle(nodes, edges);
      forall order | IsChildFirst(order, nodes, edges) ensures false {
        OrderedHasNoCycle(order, nodes, edges);
      }
    }
  }

  // ----- the algorithm: counts of incoming edges -----

  /** The children with an edge into `n`. */
  ghost function Sources(edges: Edges, n: TableName): set<TableName> {
    set e | e in edges && e.to == n :: e.from
  }

  ghost predicate CountsIncoming(incoming: map<TableName, nat>, nodes: set<TableName>, edges: Edges) {
    && incoming.Keys == nodes
    && forall n :: n in nodes ==> incoming[n] == |Sources(edges, n)|
  }

  ghost predicate ListsParents(outgoing: map<TableName, seq<TableName>>, edges: Edges) {
    && (forall c :: c in outgoing ==> Distinct(outgoing[c]))
    && (forall e :: e in edges ==> e.from in outgoing && e.to in outgoing[e.from])
    && (forall c, p :: c in outgoing && p in outgoing[c] ==> Edge(c, p) in edges)
  }

  function Parents(outgoing: map<TableName, seq<TableName>>, child: TableName): seq<TableName> {
    if child in outgoing then outgoing[child] else []
  }

  lemma SourcesMore(edges: Edges, e: Edge<TableName>, n: TableName)
    requires e !in edges
    ensures Sources(edges + {e}, n) == Sources(edges, n) + (if n == e.to then {e.from} else {})
    ensures e.from !in Sources(edges, e.to)
  {}

  lemma CountMore(edges: Edges, e: Edge<TableName>, n: TableName)
    requires e !in edges
    ensures |Sources(edges + {e}, n)| == |Sources(edges, n)| + (if n == e.to then 1 else 0)
  {
    SourcesMore(edges, e, n);
    if n != e.to {
      assert Sources(edges, n) + {} == Sources(edges, n);
    }
  }

  lemma OneMoreIncoming(incoming: map<TableName, nat>, nodes: set<TableName>, edges: Edges, e: Edge<TableName>)
    requires CountsIncoming(incoming, nodes, edges) && e !in edges && e.to in nodes
    ensures CountsIncoming(incoming[e.to := incoming[e.to] + 1], nodes, edges + {e})
  {
    var more := edges + {e};
    forall n | n in nodes ensures |Sources(more, n)| == |Sources(edges, n)| + (if n == e.to then 1 else 0) {
      CountMore(edges, e, n);
    }
  }

  lemma OneMoreParent(outgoing: map<TableName, seq<TableName>>, edges: Edges, e: Edge<TableName>)
    requires ListsParents(outgoing, edges) && e !in edges
    ensures ListsParents(outgoing[e.from := Parents(outgoing, e.from) + [e.to]], edges + {e})
  {
    assert e.to !in Parents(outgoing, e.from);
  }

  /** Fills `incoming` and `outgoing`. The source visits the edges in their sorted
    * order; any order gives these maps up to the order of each parent list,
    * which nothing observes.
    */
  method CountReferences(nodes: set<TableName>, edges: Edges)
    returns (incoming: map<TableName, nat>, outgoing: map<TableName, seq<TableName>>)
    requires forall e :: e in edges ==> e.from in nodes && e.to in nodes
    ensures CountsIncoming(incoming, nodes, edges) && ListsParents(outgoing, edges)
  {
    incoming := map n | n in nodes :: 0;
    outgoing := map[];
    var pending := edges;
    ghost var counted: Edges := {};
    while pending != {}
      invariant pending + counted == edges && pending !! counted
      invariant CountsIncoming(incoming, nodes, counted) && ListsParents(outgoing, counted)
    {
      var e :| e in pending;
      OneMoreIncoming(incoming, nodes, counted, e);
      OneMoreParent(outgoing, counted, e);
      outgoing := outgoing[e.from := Parents(outgoing, e.from) + [e.to]];
      incoming := incoming[e.to := incoming[e.to] + 1];
      MoveElement(pending, counted, e);
      pending, counted := pending - {e}, counted + {e};
    }
  }

  /** `incoming` counts the references still standing once `done` are dropped. */
  ghost predicate CountsRemaining(incoming: map<TableName, nat>, nodes: set<TableName>, done: set<TableName>,
                                  edges: Edges)
  {
    && incoming.Keys == nodes
    && forall n :: n in nodes ==> incoming[n] == |Sources(edges, n) - done|
  }

  function AtZero(incoming: map<TableName, nat>, remaining: set<TableName>): set<TableName> {
    set n | n in remaining && n in incoming && incoming[n] == 0
  }

  lemma AtZeroWithout(incoming: map<TableName, nat>, remaining: set<TableName>, next: TableName)
    ensures AtZero(incoming, remaining - {next}) == AtZero(incoming, remaining) - {next}
  {}

  lemma AtZeroLowered(incoming: map<TableName, nat>, remaining: set<TableName>, n: TableName, count: nat)
    requires n in remaining && n in incoming && count + 1 == incoming[n]
    ensures AtZero(incoming[n := count], remaining)
         == if count == 0 then AtZero(incoming, remaining) + {n} else AtZero(incoming, remaining)
  {}

  lemma ZeroIsReady(incoming: map<TableName, nat>, nodes: set<TableName>, done: set<TableName>, edges: Edges)
    requires CountsRemaining(incoming, nodes, done, edges)
    requires forall e :: e in edges ==> e.from in nodes
    ensures AtZero(incoming, nodes - done) == ReadySet(nodes - done, edges)
  {
    forall n | n in nodes - done ensures incoming[n] == 0 <==> IsReady(n, nodes - done, edges) {
      if incoming[n] == 0 {
        assert Sources(edges, n) - done == {};
        assert forall c :: c in nodes - done && Edge(c, n) in edges ==> c in Sources(edges, n) - done;
      }
      if IsReady(n, nodes - done, edges) {
        assert Sources(edges, n) - done == {};
      }
    }
  }

  /** Each of `released` has one reference less. */
  ghost predicate Released(counts: map<TableName, nat>, incoming: map<TableName, nat>, nodes: set<TableName>,
                           released: seq<TableName>) {
    counts.Keys == nodes && incoming.Keys == nodes
    && forall n :: n in nodes ==> counts[n] == incoming[n] + (if n in released then 1 else 0)
  }

  lemma ReleaseOne(counts: map<TableName, nat>, incoming: map<TableName, nat>, nodes: set<TableName>,
                   released: seq<TableName>, parent: TableName)
    requires Released(counts, incoming, nodes, released)
    requires parent in nodes && parent !in released && incoming[parent] > 0
    ensures Released(counts, incoming[parent := incoming[parent] - 1], nodes, released + [parent])
  {
    forall n ensures n in released + [parent] <==> n in released || n == parent {}
  }

  lemma DistinctAt<T>(s: seq<T>, k: nat)
    requires Distinct(s) && k < |s|
    ensures s[k] in s && s[k] !in s[..k]
  {}

  /** Drops `next`: each of its parents has one reference less and is ready at zero. */
  method ReleaseParents(counts: map<TableName, nat>, candidates: set<TableName>, next: TableName,
                        parents: seq<TableName>, ghost nodes: set<TableName>, ghost done: set<TableName>,
                        ghost edges: Edges)
    returns (incoming: map<TableName, nat>, ready: set<TableName>)
    requires CountsRemaining(counts, nodes, done, edges)
    requires next in nodes && next !in done
    requires candidates == AtZero(counts, nodes - (done + {next}))
    requires Distinct(parents) && forall p :: p in parents <==> Edge(next, p) in edges
    requires forall p :: p in parents ==> p in nodes - (done + {next})
    ensures CountsRemaining(incoming, nodes, done + {next}, edges)
    ensures ready == AtZero(incoming, nodes - (done + {next}))
  {
    incoming, ready := counts, candidates;
    ghost var left := nodes - (done + {next});
    for k := 0 to |parents|
      invariant Released(counts, incoming, nodes, parents[..k])
      invariant ready == AtZero(incoming, left)
    {
      var parent := parents[k];
      TakeMore(parents, k);
      DistinctAt(parents, k);
      OneReferenceLess(counts, nodes, done, edges, next, parent);
      var count := incoming[parent] - 1;
      AtZeroLowered(incoming, left, parent, count);
      ReleaseOne(counts, incoming, nodes, parents[..k], parent);
      incoming := incoming[parent := count];
      if count == 0 {
        ready := ready + {parent};
      }
    }
    TakeAll(parents);
    AllReleased(counts, incoming, next, parents, nodes, done, edges);
  }

  lemma SourcesWithout(edges: Edges, n: TableName, done: set<TableName>, next: TableName)
    requires Edge(next, n) !in edges
    ensures Sources(edges, n) - (done + {next}) == Sources(edges, n) - done
  {}

  lemma AllReleased(counts: map<TableName, nat>, incoming: map<TableName, nat>, next: TableName,
                    parents: seq<TableName>,
                    nodes: set<TableName>, done: set<TableName>, edges: Edges)
    requires CountsRemaining(counts, nodes, done, edges) && next !in done
    requires forall p :: p in parents <==> Edge(next, p) in edges
    requires Released(counts, incoming, nodes, parents)
    ensures CountsRemaining(incoming, nodes, done + {next}, edges)
  {
    forall n | n in nodes ensures incoming[n] == |Sources(edges, n) - (done + {next})| {
      if n in parents {
        OneReferenceLess(counts, nodes, done, edges, next, n);
      } else {
        SourcesWithout(edges, n, done, next);
      }
    }
  }

  lemma OneReferenceLess(counts: map<TableName, nat>, nodes: set<TableName>, done: set<TableName>, edges: Edges,
                         next: TableName, parent: TableName)
    requires CountsRemaining(counts, nodes, done, edges) && parent in nodes
    requires next !in done && Edge(next, parent) in edges
    ensures counts[parent] == |Sources(edges, parent) - (done + {next})| + 1
  {
    var before, after := Sources(edges, parent) - done, Sources(edges, parent) - (done + {next});
    assert Edge(next, parent).from in Sources(edges, parent);
    assert before == after + {next} && next !in after;
  }

  /** What holds between two rounds of the sort. */
  ghost predicate SortInvariant(nodes: set<TableName>, edges: Edges, incoming: map<TableName, nat>,
                                ready: set<TableName>, done: set<TableName>) {
    && done <= nodes
    && CountsRemaining(incoming, nodes, done, edges)
    && ready == AtZero(incoming, nodes - done)
    && ready == ReadySet(nodes - done, edges)
    && forall e :: e in edges && e.to in done ==> e.from in done
  }

  /** One round: takes the first ready table and releases its parents. */
  method DropNext(nodes: set<TableName>, edges: Edges, counts: map<TableName, nat>,
                  outgoing: map<TableName, seq<TableName>>, candidates: set<TableName>, ghost done: set<TableName>)
    returns (next: TableName, incoming: map<TableName, nat>, ready: set<TableName>)
    requires forall e :: e in edges ==> e.from in nodes && e.to in nodes
    requires ListsParents(outgoing, edges) && SortInvariant(nodes, edges, counts, candidates, done)
    requires candidates != {}
    ensures next == First(ReadySet(nodes - done, edges)) && next in nodes - done
    ensures SortInvariant(nodes, edges, incoming, ready, done + {next})
  {
    next := First(candidates);
    SubtractMore(nodes, done, next);
    LaterParents(outgoing, nodes, done, edges, next);
    AtZeroWithout(counts, nodes - done, next);
    incoming, ready := ReleaseParents(counts, candidates - {next}, next, Parents(outgoing, next), nodes, done, edges);
    ZeroIsReady(incoming, nodes, done + {next}, edges);
  }

  method SortChildFirst(nodes: set<TableName>, edges: Edges) returns (r: Option<seq<TableName>>)
    requires forall e :: e in edges ==> e.from in nodes && e.to in nodes
    ensures r == Greedy(nodes, edges)
  {
    var incoming, outgoing := CountReferences(nodes, edges);
    var ready := AtZero(incoming, nodes);
    var ordered: seq<TableName> := [];
    ghost var done: set<TableName> := {};
    SortStarts(nodes, edges, incoming);
    while ready != {}
      invariant SortInvariant(nodes, edges, incoming, ready, done)
      invariant OrderedSoFar(nodes, edges, ordered, done)
      decreases |nodes - done|
    {
      var next;
      next, incoming, ready := DropNext(nodes, edges, incoming, outgoing, ready, done);
      OrderedMore(nodes, edges, ordered, done, next);
      ordered := ordered + [next];
      done := done + {next};
    }
    OrderedAll(nodes, edges, ordered, done);
    return if |ordered| != |nodes| then None else Some(ordered);
  }

  /** The order found so far is how the specification begins. */
  ghost predicate OrderedSoFar(nodes: set<TableName>, edges: Edges, ordered: seq<TableName>, done: set<TableName>) {
    && |ordered| == |done|
    && Greedy(nodes, edges) == Prefixed(ordered, Greedy(nodes - done, edges))
  }

  lemma OrderedMore(nodes: set<TableName>, edges: Edges, ordered: seq<TableName>, done: set<TableName>, next: TableName)
    requires OrderedSoFar(nodes, edges, ordered, done) && next in nodes - done
    requires ReadySet(nodes - done, edges) != {} && next == First(ReadySet(nodes - done, edges))
    ensures OrderedSoFar(nodes, edges, ordered + [next], done + {next})
    ensures |nodes - (done + {next})| < |nodes - done|
  {
    GreedyStep(nodes - done, edges, ordered, next);
    SubtractMore(nodes, done, next);
  }

  lemma OrderedAll(nodes: set<TableName>, edges: Edges, ordered: seq<TableName>, done: set<TableName>)
    requires OrderedSoFar(nodes, edges, ordered, done) && done <= nodes && ReadySet(nodes - done, edges) == {}
    ensures Greedy(nodes, edges) == if |ordered| != |nodes| then None else Some(ordered)
  {
    GreedyEnds(nodes, done, edges, ordered);
  }

  lemma SortStarts(nodes: set<TableName>, edges: Edges, incoming: map<TableName, nat>)
    requires CountsIncoming(incoming, nodes, edges)
    requires forall e :: e in edges ==> e.from in nodes
    ensures SortInvariant(nodes, edges, incoming, AtZero(incoming, nodes), {})
    ensures OrderedSoFar(nodes, edges, [], {})
  {
    assert forall n :: Sources(edges, n) - {} == Sources(edges, n);
    assert nodes - {} == nodes;
    ZeroIsReady(incoming, nodes, {}, edges);
    GreedyStarts(nodes, edges);
  }

  ghost function Prefixed(prefix: seq<TableName>, order: Option<seq<TableName>>): Option<seq<TableName>> {
    if order.None? then None else Some(prefix + order.value)
  }

  lemma GreedyStarts(remaining: set<TableName>, edges: Edges)
    ensures Greedy(remaining, edges) == Prefixed([], Greedy(remaining, edges))
  {
    var all := Greedy(remaining, edges);
    if all.Some? { assert [] + all.value == all.value; }
  }

  lemma GreedyStep(remaining: set<TableName>, edges: Edges, prefix: seq<TableName>, next: TableName)
    requires ReadySet(remaining, edges) != {} && next == First(ReadySet(remaining, edges))
    ensures Prefixed(prefix, Greedy(remaining, edges))
         == Prefixed(prefix + [next], Greedy(remaining - {next}, edges))
  {
    assert next in remaining;
    var rest := Greedy(remaining - {next}, edges);
    if rest.Some? {
      assert Greedy(remaining, edges) == Some([next] + rest.value);
      assert prefix + ([next] + rest.value) == prefix + [next] + rest.value;
    } else {
      assert Greedy(remaining, edges).None?;
    }
  }

  lemma GreedyEnds(nodes: set<TableName>, done: set<TableName>, edges: Edges, prefix: seq<TableName>)
    requires done <= nodes && ReadySet(nodes - done, edges) == {} && |prefix| == |done|
    ensures Prefixed(prefix, Greedy(nodes - done, edges)) == if |prefix| != |nodes| then None else Some(prefix)
  {
    Complement(nodes, done);
    assert prefix + [] == prefix;
  }

  /** No parent of a table that is ready was dropped before it. */
  lemma LaterParents(outgoing: map<TableName, seq<TableName>>, nodes: set<TableName>, done: set<TableName>,
                     edges: Edges, next: TableName)
    requires ListsParents(outgoing, edges) && IsReady(next, nodes - done, edges)
    requires forall e :: e in edges ==> e.from in nodes && e.to in nodes
    requires forall e :: e in edges && e.to in done ==> e.from in done
    ensures Distinct(Parents(outgoing, next))
    ensures forall p :: p in Parents(outgoing, next) <==> Edge(next, p) in edges
    ensures forall p :: p in Parents(outgoing, next) ==> p in nodes - (done + {next})
    ensures forall e :: e in edges && e.to in done + {next} ==> e.from in done + {next}
  {
    forall p ensures p in Parents(outgoing, next) <==> Edge(next, p) in edges {
      if Edge(next, p) in edges { assert Edge(next, p).to in outgoing[next]; }
    }
    forall p | Edge(next, p) in edges ensures p in nodes - (done + {next}) {
      assert Edge(next, p).to == p && Edge(next, p).from == next;
    }
    forall e | e in edges && e.to == next ensures e.from in done {
      assert e == Edge(e.from, next);
    }
  }

  method OrderDroppedTables(dropped: set<TableName>, foreignKeys: seq<ForeignKey>)
    returns (r: Result<seq<TableName>, DiffError>)
    ensures r == DroppedOrder(dropped, foreignKeys)
  {
    var order := SortChildFirst(dropped, DroppedEdges(dropped, foreignKeys));
    return if order.Some? then Success(order.value) else Failure(ForeignKeyCycle);
  }

  function DroppedOrder(dropped: set<TableName>, foreignKeys: seq<ForeignKey>): Result<seq<TableName>, DiffError> {
    var order := Greedy(dropped, DroppedEdges(dropped, foreignKeys));
    if order.Some? then Success(order.value) else Failure(ForeignKeyCycle)
  }
}
