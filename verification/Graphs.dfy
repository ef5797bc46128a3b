/** Directed graphs given by a list of edges: walks, cycles, topological orders, chains. */
module Graphs {

  datatype Edge<T> = Edge(pred: T, succ: T)

  /** A non-empty sequence of vertices, each joined to the next by an edge. */
  ghost predicate IsWalk<T>(edges: seq<Edge<T>>, walk: seq<T>) {
    && |walk| > 0
    && forall k | 1 <= k < |walk| :: Edge(walk[k - 1], walk[k]) in edges
  }

  ghost predicate IsCycle<T>(edges: seq<Edge<T>>, walk: seq<T>) {
    IsWalk(edges, walk) && |walk| > 1 && walk[0] == walk[|walk| - 1]
  }

  ghost predicate Acyclic<T(!new)>(edges: seq<Edge<T>>) {
    !exists walk: seq<T> :: IsCycle(edges, walk)
  }

  predicate Distinct<T(==)>(s: seq<T>) {
    forall i, j | 0 <= i < j < |s| :: s[i] != s[j]
  }

  ghost function Elements<T>(s: seq<T>): set<T> {
    set x | x in s
  }

  /** Every predecessor of a vertex in the order stands before it. */
  ghost predicate Topological<T>(edges: seq<Edge<T>>, order: seq<T>) {
    forall e, j | e in edges && 0 <= j < |order| && order[j] == e.succ :: e.pred in order[..j]
  }

  // ---------------------------------------------------------------- counting

  lemma {:induction false} DistinctLength<T>(s: seq<T>, elements: set<T>)
    requires Distinct(s) && forall x <- s :: x in elements
    ensures |s| <= |elements|
    ensures |s| == |elements| <==> forall x <- elements :: x in s
  {
    if s == [] {
      assert elements != {} ==> exists x :: x in elements;
    } else {
      var last := s[|s| - 1];
      var init := s[..|s| - 1];
      assert s == init + [last];
      forall x <- init ensures x in elements - {last} {
        assert x in s;
      }
      DistinctLength(init, elements - {last});
    }
  }

  lemma {:induction false} DistinctConcat<T>(a: seq<T>, b: seq<T>)
    requires Distinct(a) && Distinct(b) && forall x <- b :: x !in a
    ensures Distinct(a + b)
  {
    forall i, j | 0 <= i < j < |a + b| ensures (a + b)[i] != (a + b)[j] {
      if i < |a| <= j {
        assert b[j - |a|] in b && a[i] in a;
      }
    }
  }

  /** The first n natural numbers. */
  function Range(n: nat): (r: set<nat>)
    ensures |r| == n && forall i: nat :: i in r <==> i < n
  {
    if n == 0 then {} else Range(n - 1) + {n - 1}
  }

  /** Pigeonhole: more positions than values give a value at two positions. */
  lemma {:induction false} Pigeonhole<T>(s: seq<T>, values: set<T>) returns (i: nat, j: nat)
    requires |s| > |values| && forall x <- s :: x in values
    ensures i < j < |s| && s[i] == s[j]
  {
    if Distinct(s) {
      DistinctLength(s, values);
      assert false;
    }
    i, j :| 0 <= i < j < |s| && s[i] == s[j];
  }

  // ------------------------------------------------- no entry vertex, hence a cycle

  ghost predicate HasPredecessorIn<T(!new)>(edges: seq<Edge<T>>, region: set<T>, v: T) {
    exists p :: p in region && Edge(p, v) in edges
  }

  /** In a set where every vertex has a predecessor, one can walk backwards for ever. */
  lemma {:induction false} BackwardWalk<T(!new)>(edges: seq<Edge<T>>, region: set<T>, length: nat)
    returns (walk: seq<T>)
    requires region != {} && length > 0
    requires forall v <- region :: HasPredecessorIn(edges, region, v)
    ensures IsWalk(edges, walk) && |walk| == length && forall v <- walk :: v in region
  {
    if length == 1 {
      var v :| v in region;
      walk := [v];
    } else {
      var rest := BackwardWalk(edges, region, length - 1);
      assert HasPredecessorIn(edges, region, rest[0]);
      var p :| p in region && Edge(p, rest[0]) in edges;
      walk := [p] + rest;
      forall k | 1 <= k < |walk| ensures Edge(walk[k - 1], walk[k]) in edges {
        if k > 1 {
          assert walk[k - 1] == rest[k - 2] && walk[k] == rest[k - 1];
        }
      }
    }
  }

  lemma {:induction false} LoopingWalkGivesCycle<T(!new)>(edges: seq<Edge<T>>, walk: seq<T>, i: nat, j: nat)
    requires IsWalk(edges, walk) && i < j < |walk| && walk[i] == walk[j]
    ensures IsCycle(edges, walk[i..j + 1]) && !Acyclic(edges)
  {
    var cycle := walk[i..j + 1];
    forall k | 1 <= k < |cycle| ensures Edge(cycle[k - 1], cycle[k]) in edges {
      assert cycle[k - 1] == walk[i + k - 1] && cycle[k] == walk[i + k];
    }
    assert IsCycle(edges, cycle);
  }

  /** A non-empty finite region without an entry vertex holds a cycle. */
  lemma {:induction false} NoEntryMeansCycle<T(!new)>(edges: seq<Edge<T>>, region: set<T>) returns (cycle: seq<T>)
    requires region != {}
    requires forall v <- region :: HasPredecessorIn(edges, region, v)
    ensures IsCycle(edges, cycle) && !Acyclic(edges)
    ensures forall v <- cycle :: v in region
  {
    var walk := BackwardWalk(edges, region, |region| + 1);
    var i, j := Pigeonhole(walk, region);
    LoopingWalkGivesCycle(edges, walk, i, j);
    cycle := walk[i..j + 1];
  }

  /** A vertex all of whose predecessors are in the order may come next. */
  lemma {:induction false} AppendToOrder<T>(edges: seq<Edge<T>>, order: seq<T>, v: T)
    requires Topological(edges, order)
    requires forall e <- edges | e.succ == v :: e.pred in order
    ensures Topological(edges, order + [v])
  {
    var longer := order + [v];
    forall e, j | e in edges && 0 <= j < |longer| && longer[j] == e.succ ensures e.pred in longer[..j] {
      if j < |order| {
        assert longer[..j] == order[..j];
      } else {
        assert longer[..j] == order;
      }
    }
  }

  // -------------------------------------------- a topological order, hence no cycle

  /** Along a topological order a walk moves strictly forward. */
  lemma {:induction false} WalkMovesForward<T>(edges: seq<Edge<T>>, order: seq<T>, walk: seq<T>, j: nat)
    returns (i: nat)
    requires Topological(edges, order) && IsWalk(edges, walk)
    requires j < |order| && order[j] == walk[|walk| - 1]
    ensures i + |walk| <= j + 1 && order[i] == walk[0]
    decreases |walk|
  {
    if |walk| == 1 {
      i := j;
    } else {
      var init := walk[..|walk| - 1];
      var e := Edge(walk[|walk| - 2], walk[|walk| - 1]);
      assert e in edges && e.pred in order[..j];
      var m :| 0 <= m < j && order[m] == e.pred;
      i := WalkMovesForward(edges, order, init, m);
    }
  }

  lemma {:induction false} TopologicalMeansAcyclic<T(!new)>(edges: seq<Edge<T>>, order: seq<T>)
    requires Topological(edges, order) && Distinct(order)
    requires forall e <- edges :: e.succ in order
    ensures Acyclic(edges)
  {
    if walk: seq<T> :| IsCycle(edges, walk) {
      var last := Edge(walk[|walk| - 2], walk[|walk| - 1]);
      assert last in edges && last.succ in order;
      var j :| 0 <= j < |order| && order[j] == walk[|walk| - 1];
      var i := WalkMovesForward(edges, order, walk, j);
    }
  }

  // ------------------------------------------------------- chains ending in a vertex

  /** No chain of dependencies ending in v has more than k vertices. */
  ghost predicate DepthAtMost<T(!new)>(edges: seq<Edge<T>>, v: T, k: nat) {
    forall walk: seq<T> | IsWalk(edges, walk) && walk[|walk| - 1] == v :: |walk| <= k
  }

  /** Depth is one more than the depth of the deepest predecessor. */
  lemma {:induction false} DepthStep<T(!new)>(edges: seq<Edge<T>>, v: T, k: nat)
    ensures DepthAtMost(edges, v, k + 1)
      <==> forall e <- edges | e.succ == v :: DepthAtMost(edges, e.pred, k)
  {
    if DepthAtMost(edges, v, k + 1) {
      forall e <- edges, walk: seq<T>
        | e.succ == v && IsWalk(edges, walk) && walk[|walk| - 1] == e.pred
        ensures |walk| <= k
      {
        var longer := walk + [v];
        assert IsWalk(edges, longer);
      }
    }
    if forall e <- edges | e.succ == v :: DepthAtMost(edges, e.pred, k) {
      forall walk: seq<T> | IsWalk(edges, walk) && walk[|walk| - 1] == v ensures |walk| <= k + 1 {
        if |walk| > 1 {
          var init := walk[..|walk| - 1];
          var e := Edge(init[|init| - 1], v);
          assert IsWalk(edges, init) && e in edges && e.succ == v;
          assert DepthAtMost(edges, e.pred, k);
        }
      }
    }
  }

  /** Depths are positive and, in an acyclic graph, bounded by the number of vertices. */
  lemma {:induction false} DepthBounds<T(!new)>(edges: seq<Edge<T>>, v: T, vertices: set<T>)
    requires Acyclic(edges) && v in vertices
    requires forall e <- edges :: e.pred in vertices && e.succ in vertices
    ensures !DepthAtMost(edges, v, 0)
    ensures DepthAtMost(edges, v, |vertices|)
  {
    assert IsWalk(edges, [v]);
    forall walk: seq<T> | IsWalk(edges, walk) && walk[|walk| - 1] == v ensures |walk| <= |vertices| {
      if |walk| > |vertices| {
        forall x <- walk ensures x in vertices {
          var k :| 0 <= k < |walk| && walk[k] == x;
          if k > 0 {
            assert Edge(walk[k - 1], walk[k]) in edges;
          } else if |walk| > 1 {
            assert Edge(walk[0], walk[1]) in edges;
          }
        }
        var i, j := Pigeonhole(walk, vertices);
        LoopingWalkGivesCycle(edges, walk, i, j);
        assert false;
      }
    }
  }
}
