/** Walks and cycles along the edges of a finite directed graph. */
module Graphs {
  import opened Orders

  datatype Edge<T> = Edge(from: T, to: T)

  /** A sequence of nodes, each with an edge to the next. */
  ghost predicate IsWalk<T>(walk: seq<T>, nodes: set<T>, edges: set<Edge<T>>) {
    && (forall i :: 0 <= i < |walk| ==> walk[i] in nodes)
    && (forall i :: 0 <= i < |walk| - 1 ==> Edge(walk[i], walk[i + 1]) in edges)
  }

  /** A closed walk; a node with an edge to itself makes one. */
  ghost predicate IsCycle<T>(walk: seq<T>, nodes: set<T>, edges: set<Edge<T>>) {
    && IsWalk(walk, nodes, edges)
    && |walk| >= 2
    && walk[0] == walk[|walk| - 1]
  }

  ghost predicate HasCycle<T(!new)>(nodes: set<T>, edges: set<Edge<T>>) {
    exists walk :: IsCycle(walk, nodes, edges)
  }

  ghost predicate HasPredecessor<T>(n: T, nodes: set<T>, edges: set<Edge<T>>) {
    exists p :: p in nodes && Edge(p, n) in edges
  }

  lemma {:induction false} DistinctFits<T>(s: seq<T>, nodes: set<T>)
    requires Distinct(s) && forall x :: x in s ==> x in nodes
    ensures |s| <= |nodes|
  {
    if s != [] {
      var rest := s[1..];
      assert forall i :: 0 <= i < |rest| ==> rest[i] == s[i + 1];
      DistinctFits(rest, nodes - {s[0]});
    }
  }

  /** Where every node has a predecessor, walks of any length exist. */
  lemma {:induction false} WalkBack<T>(nodes: set<T>, edges: set<Edge<T>>, length: nat) returns (walk: seq<T>)
    requires nodes != {} && forall n :: n in nodes ==> HasPredecessor(n, nodes, edges)
    ensures IsWalk(walk, nodes, edges) && |walk| == length + 1
  {
    if length == 0 {
      var n :| n in nodes;
      walk := [n];
    } else {
      var tail := WalkBack(nodes, edges, length - 1);
      assert HasPredecessor(tail[0], nodes, edges);
      var p :| p in nodes && Edge(p, tail[0]) in edges;
      walk := [p] + tail;
    }
  }

  /** A finite graph where every node has a predecessor contains a cycle. */
  lemma StuckHasCycle<T(!new)>(nodes: set<T>, edges: set<Edge<T>>)
    requires nodes != {} && forall n :: n in nodes ==> HasPredecessor(n, nodes, edges)
    ensures HasCycle(nodes, edges)
  {
    var walk := WalkBack(nodes, edges, |nodes|);
    if Distinct(walk) { DistinctFits(walk, nodes); assert false; }
    var i, j :| 0 <= i < j < |walk| && walk[i] == walk[j];
    var cycle := walk[i..j + 1];
    assert forall k :: 0 <= k < |cycle| ==> cycle[k] == walk[i + k];
    assert IsCycle(cycle, nodes, edges);
  }

  lemma CycleStays<T(!new)>(nodes: set<T>, more: set<T>, edges: set<Edge<T>>)
    requires HasCycle(nodes, edges) && nodes <= more
    ensures HasCycle(more, edges)
  {
    var walk :| IsCycle(walk, nodes, edges);
    assert IsCycle(walk, more, edges);
  }
}
