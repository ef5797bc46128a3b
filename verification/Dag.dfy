/** Validation of a submitted task graph (app/domain/dag.py). */
module Dag {
  import opened Graphs

  datatype DagVerdict =
    | Valid
    | NoSubtasks
    | DuplicateIds
    | UnknownSubtask
    | SelfDependency
    | CycleFound

  predicate Known(ids: seq<string>, e: Edge<string>) {
    e.pred in ids && e.succ in ids
  }

  predicate Sound(ids: seq<string>, e: Edge<string>) {
    Known(ids, e) && e.pred != e.succ
  }

  /** The complaint about one dependency. */
  function EdgeVerdict(ids: seq<string>, e: Edge<string>): DagVerdict {
    if !Known(ids, e) then UnknownSubtask else if e.pred == e.succ then SelfDependency else Valid
  }

  /** The complaint about the first unsound dependency, if there is one. */
  function EdgesVerdict(ids: seq<string>, deps: seq<Edge<string>>): (v: DagVerdict)
    ensures v == Valid <==> forall e <- deps :: Sound(ids, e)
  {
    if deps == [] then Valid
    else
      assert deps == [deps[0]] + deps[1..];
      var first := EdgeVerdict(ids, deps[0]);
      assert deps[0] in deps && (first == Valid <==> Sound(ids, deps[0]));
      if first != Valid then first else EdgesVerdict(ids, deps[1..])
  }

  /** What validation has to answer, stated without an algorithm: acyclic means that no walk
      along the dependencies returns to where it began. */
  ghost function VerdictOf(ids: seq<string>, deps: seq<Edge<string>>): DagVerdict {
    if ids == [] then NoSubtasks
    else if !Distinct(ids) then DuplicateIds
    else if EdgesVerdict(ids, deps) != Valid then EdgesVerdict(ids, deps)
    else if !Acyclic(deps) then CycleFound
    else Valid
  }

  lemma {:induction false} ValidIff(ids: seq<string>, deps: seq<Edge<string>>)
    ensures VerdictOf(ids, deps) == Valid
      <==> && ids != []
           && Distinct(ids)
           && (forall e <- deps :: e.pred in ids && e.succ in ids && e.pred != e.succ)
           && Acyclic(deps)
  {
    assert EdgesVerdict(ids, deps) == Valid <==> forall e <- deps :: Sound(ids, e);
  }

  /** Dependency k is the first with an unknown end or with equal ends. */
  predicate FirstOffence(ids: seq<string>, deps: seq<Edge<string>>, k: nat) {
    && k < |deps|
    && (forall j | 0 <= j < k :: deps[j].pred in ids && deps[j].succ in ids && deps[j].pred != deps[j].succ)
    && !(deps[k].pred in ids && deps[k].succ in ids && deps[k].pred != deps[k].succ)
  }

  lemma {:induction false} OffenceFound(ids: seq<string>, deps: seq<Edge<string>>) returns (k: nat)
    requires EdgesVerdict(ids, deps) != Valid
    ensures FirstOffence(ids, deps, k)
    ensures EdgesVerdict(ids, deps)
      == if deps[k].pred !in ids || deps[k].succ !in ids then UnknownSubtask else SelfDependency
  {
    if EdgeVerdict(ids, deps[0]) != Valid {
      k := 0;
    } else {
      k := OffenceFound(ids, deps[1..]);
      k := k + 1;
    }
  }

  /** Each complaint by its own condition, in the order of the checks: the complaint about a
      dependency is that about the first offending one, unknown ends before equal ends. */
  lemma {:induction false} ComplaintIff(ids: seq<string>, deps: seq<Edge<string>>, k: nat)
    ensures VerdictOf(ids, deps) == NoSubtasks <==> ids == []
    ensures VerdictOf(ids, deps) == DuplicateIds <==> ids != [] && !Distinct(ids)
    ensures ids != [] && Distinct(ids) && FirstOffence(ids, deps, k) ==>
              VerdictOf(ids, deps)
                == if deps[k].pred !in ids || deps[k].succ !in ids then UnknownSubtask else SelfDependency
    ensures VerdictOf(ids, deps) == CycleFound
      <==> && ids != [] && Distinct(ids) && !Acyclic(deps)
           && (forall e <- deps :: e.pred in ids && e.succ in ids && e.pred != e.succ)
  {
    assert EdgesVerdict(ids, deps) == Valid <==> forall e <- deps :: Sound(ids, e);
    if FirstOffence(ids, deps, k) {
      assert deps[k] in deps && !Sound(ids, deps[k]);
    }
    if EdgesVerdict(ids, deps) != Valid {
      var j := OffenceFound(ids, deps);
      if FirstOffence(ids, deps, k) {
        assert j == k;
      }
    }
  }

  // ------------------------------------------------------------- in-degree counting

  /** The number of dependencies of v whose predecessor is not done; duplicates count twice. */
  function OpenInto(deps: seq<Edge<string>>, v: string, done: set<string>): nat {
    if deps == [] then 0
    else
      var last := deps[|deps| - 1];
      OpenInto(deps[..|deps| - 1], v, done)
      + if last.succ == v && last.pred !in done then 1 else 0
  }

  /** The successors of u, one for every dependency, in the order of the dependencies. */
  function Successors(deps: seq<Edge<string>>, u: string): seq<string> {
    if deps == [] then []
    else
      var last := deps[|deps| - 1];
      Successors(deps[..|deps| - 1], u) + if last.pred == u then [last.succ] else []
  }

  /** Finishing u lowers the counter of v by the number of times v is among u's successors. */
  lemma {:induction false} FinishLowersCounters(
    deps: seq<Edge<string>>, v: string, done: set<string>, u: string)
    requires u !in done
    ensures OpenInto(deps, v, done)
      == OpenInto(deps, v, done + {u}) + multiset(Successors(deps, u))[v]
  {
    if deps != [] {
      FinishLowersCounters(deps[..|deps| - 1], v, done, u);
    }
  }

  lemma {:induction false} NoneOpen(deps: seq<Edge<string>>, v: string, done: set<string>)
    ensures OpenInto(deps, v, done) == 0
      <==> forall e <- deps | e.succ == v :: e.pred in done
  {
    if deps != [] {
      var last := deps[|deps| - 1];
      assert deps == deps[..|deps| - 1] + [last];
      NoneOpen(deps[..|deps| - 1], v, done);
    }
  }

  lemma {:induction false} SuccessorsKnown(ids: seq<string>, deps: seq<Edge<string>>, u: string)
    requires forall e <- deps :: Sound(ids, e)
    ensures forall v <- Successors(deps, u) :: v in ids
  {
    if deps != [] {
      assert deps[|deps| - 1] in deps;
      SuccessorsKnown(ids, deps[..|deps| - 1], u);
    }
  }

  lemma {:induction false} ElementCount(s: seq<string>)
    ensures |Elements(s)| <= |s|
    ensures |Elements(s)| == |s| <==> Distinct(s)
  {
    if s != [] {
      var init, last := s[..|s| - 1], s[|s| - 1];
      assert s == init + [last];
      assert Elements(s) == Elements(init) + {last};
      ElementCount(init);
      assert Distinct(s) <==> Distinct(init) && last !in init;
    }
  }

  // ---------------------------------------------------------------- the algorithm

  /** The unique-id test of the program: compare the length with the size of the set. */
  method HasUniqueIds(ids: seq<string>) returns (unique: bool)
    ensures unique <==> Distinct(ids)
  {
    ElementCount(ids);
    unique := |ids| == |set x | x in ids|;
    assert (set x | x in ids) == Elements(ids);
  }

  method CheckEdges(ids: seq<string>, deps: seq<Edge<string>>) returns (verdict: DagVerdict)
    ensures verdict == EdgesVerdict(ids, deps)
  {
    var known := set x | x in ids;
    for k := 0 to |deps|
      invariant EdgesVerdict(ids, deps) == EdgesVerdict(ids, deps[k..])
    {
      if deps[k].pred !in known || deps[k].succ !in known {
        return UnknownSubtask;
      }
      if deps[k].pred == deps[k].succ {
        return SelfDependency;
      }
      assert deps[k..][1..] == deps[k + 1..];
    }
    verdict := Valid;
  }

  /** The counters and the adjacency lists agree with the dependencies seen so far. */
  ghost predicate Counted(ids: seq<string>, deps: seq<Edge<string>>,
                          incoming: map<string, nat>, graph: map<string, seq<string>>)
  {
    && incoming.Keys == Elements(ids)
    && (forall v <- ids :: incoming[v] == OpenInto(deps, v, {}))
    && (forall u :: SuccessorsIn(graph, u) == Successors(deps, u))
  }

  lemma {:induction false} OneMore(deps: seq<Edge<string>>, e: Edge<string>, v: string)
    ensures OpenInto(deps + [e], v, {}) == OpenInto(deps, v, {}) + if e.succ == v then 1 else 0
    ensures Successors(deps + [e], v) == Successors(deps, v) + if e.pred == v then [e.succ] else []
  {
    assert (deps + [e])[..|deps|] == deps;
  }

  lemma {:induction false} CountOne(ids: seq<string>, deps: seq<Edge<string>>, e: Edge<string>,
                 incoming: map<string, nat>, graph: map<string, seq<string>>)
    requires Counted(ids, deps, incoming, graph) && Sound(ids, e)
    ensures Counted(ids, deps + [e], incoming[e.succ := incoming[e.succ] + 1],
                    graph[e.pred := SuccessorsIn(graph, e.pred) + [e.succ]])
  {
    var graph' := graph[e.pred := SuccessorsIn(graph, e.pred) + [e.succ]];
    forall v ensures SuccessorsIn(graph', v) == Successors(deps + [e], v) {
      OneMore(deps, e, v);
      assert SuccessorsIn(graph, v) == Successors(deps, v);
    }
    forall v <- ids ensures OpenInto(deps + [e], v, {}) == incoming[v] + if e.succ == v then 1 else 0 {
      OneMore(deps, e, v);
    }
  }

  lemma {:induction false} CountNone(ids: seq<string>, deps: seq<Edge<string>>)
    ensures Counted(ids, deps[..0], map x | x in ids :: 0, map[])
  {
  }

  method CountIncoming(ids: seq<string>, deps: seq<Edge<string>>)
    returns (incoming: map<string, nat>, graph: map<string, seq<string>>)
    requires forall e <- deps :: Sound(ids, e)
    ensures Counted(ids, deps, incoming, graph)
  {
    hide OpenInto, Successors, SuccessorsIn;
    incoming := map x | x in ids :: 0;
    graph := map[];
    CountNone(ids, deps);
    for k := 0 to |deps|
      invariant Counted(ids, deps[..k], incoming, graph)
    {
      var e := deps[k];
      CountOne(ids, deps[..k], e, incoming, graph);
      assert deps[..k + 1] == deps[..k] + [e];
      graph := graph[e.pred := SuccessorsIn(graph, e.pred) + [e.succ]];
      incoming := incoming[e.succ := incoming[e.succ] + 1];
    }
    assert deps[..|deps|] == deps;
  }

  /** A dictionary whose missing keys stand for the empty list. */
  function SuccessorsIn(graph: map<string, seq<string>>, u: string): seq<string> {
    if u in graph then graph[u] else []
  }

  method EntryVertices(ids: seq<string>, incoming: map<string, nat>) returns (queue: seq<string>)
    requires Distinct(ids) && incoming.Keys == Elements(ids)
    ensures Distinct(queue)
    ensures forall v :: v in queue <==> v in ids && incoming[v] == 0
  {
    queue := [];
    for k := 0 to |ids|
      invariant Distinct(queue)
      invariant forall v :: v in queue <==> v in ids[..k] && incoming[v] == 0
    {
      if incoming[ids[k]] == 0 {
        assert ids[k] !in ids[..k];
        queue := queue + [ids[k]];
      }
    }
    assert ids[..|ids|] == ids;
  }

  /** The state between two visits: which vertices are finished, which are queued. */
  ghost predicate Underway(ids: seq<string>, deps: seq<Edge<string>>,
                           incoming: map<string, nat>, done: seq<string>, queue: seq<string>)
  {
    && incoming.Keys == Elements(ids)
    && (forall v <- ids :: incoming[v] == OpenInto(deps, v, Elements(done)))
    && Distinct(done + queue)
    && (forall v :: v in done + queue <==> v in ids && incoming[v] == 0)
    && Topological(deps, done)
  }

  /** The state within a visit: finished includes the visited vertex, and the counters of the
      successors in rest are still to be lowered. */
  ghost predicate Visiting(ids: seq<string>, deps: seq<Edge<string>>, incoming: map<string, nat>,
                           finished: seq<string>, queue: seq<string>, rest: seq<string>)
  {
    && incoming.Keys == Elements(ids)
    && (forall v <- ids ::
          incoming[v] == OpenInto(deps, v, Elements(finished)) + multiset(rest)[v])
    && Distinct(finished + queue)
    && (forall v :: v in finished + queue <==> v in ids && incoming[v] == 0)
    && Topological(deps, finished)
  }

  lemma {:induction false} LowerOne(ids: seq<string>, deps: seq<Edge<string>>, incoming: map<string, nat>,
                 finished: seq<string>, queue: seq<string>, rest: seq<string>)
    requires Visiting(ids, deps, incoming, finished, queue, rest)
    requires rest != [] && rest[0] in ids
    ensures incoming[rest[0]] > 0
    ensures var lowered := incoming[rest[0] := incoming[rest[0]] - 1];
            var queue' := if lowered[rest[0]] == 0 then queue + [rest[0]] else queue;
            Visiting(ids, deps, lowered, finished, queue', rest[1..])
  {
    var successor := rest[0];
    assert rest == [successor] + rest[1..];
    assert multiset(rest) == multiset{successor} + multiset(rest[1..]);
    assert successor !in finished + queue;
    assert finished + (queue + [successor]) == (finished + queue) + [successor];
  }

  /** One visit: lower the counter of every successor, queue those that reach zero. */
  method Visit(ghost ids: seq<string>, ghost deps: seq<Edge<string>>, next: seq<string>,
               incoming0: map<string, nat>, queue0: seq<string>, ghost done: seq<string>)
    returns (incoming: map<string, nat>, queue: seq<string>)
    requires forall e <- deps :: Sound(ids, e)
    requires queue0 != [] && Underway(ids, deps, incoming0, done, queue0)
    requires next == Successors(deps, queue0[0])
    ensures Underway(ids, deps, incoming, done + [queue0[0]], queue)
  {
    queue, incoming := queue0[1..], incoming0;
    ghost var finished := done + [queue0[0]];
    StartVisit(ids, deps, incoming0, done, queue0);
    assert next[0..] == next;
    for k := 0 to |next|
      invariant Visiting(ids, deps, incoming, finished, queue, next[k..])
    {
      var successor := next[k];
      assert successor in next && successor in ids && successor == next[k..][0];
      assert next[k..][1..] == next[k + 1..];
      LowerOne(ids, deps, incoming, finished, queue, next[k..]);
      incoming := incoming[successor := incoming[successor] - 1];
      if incoming[successor] == 0 {
        queue := queue + [successor];
      }
    }
  }

  /** Taking the head of the queue: it counts as finished, its successors are still to come. */
  lemma {:induction false} StartVisit(ids: seq<string>, deps: seq<Edge<string>>, incoming: map<string, nat>,
                   done: seq<string>, queue: seq<string>)
    requires forall e <- deps :: Sound(ids, e)
    requires queue != [] && Underway(ids, deps, incoming, done, queue)
    ensures Visiting(ids, deps, incoming, done + [queue[0]], queue[1..], Successors(deps, queue[0]))
    ensures forall v <- Successors(deps, queue[0]) :: v in ids
  {
    var current := queue[0];
    assert done + [current] + queue[1..] == done + queue;
    assert (done + queue)[|done|] == current;
    assert forall i | 0 <= i < |done| :: (done + queue)[i] == done[i];
    assert current !in done;
    assert Elements(done + [current]) == Elements(done) + {current};
    SuccessorsKnown(ids, deps, current);
    forall v <- ids {
      FinishLowersCounters(deps, v, Elements(done), current);
    }
    assert current in done + queue;
    NoneOpen(deps, current, Elements(done));
    AppendToOrder(deps, done, current);
  }

  /** With an empty queue, either every vertex is finished or the others hold a cycle. */
  lemma {:induction false} ShortfallIsCycle(ids: seq<string>, deps: seq<Edge<string>>,
                         incoming: map<string, nat>, done: seq<string>) returns (cycle: seq<string>)
    requires Distinct(ids) && forall e <- deps :: Sound(ids, e)
    requires Underway(ids, deps, incoming, done, []) && |done| != |ids|
    ensures IsCycle(deps, cycle) && !Acyclic(deps)
    ensures forall v <- cycle :: v in ids && v !in done
  {
    var region := Elements(ids) - Elements(done);
    assert done + [] == done;
    DistinctLength(ids, Elements(ids));
    DistinctLength(done, Elements(ids));
    if region == {} {
      forall v <- Elements(ids) ensures v in done {
        assert v !in region;
      }
      assert false;
    }
    forall v <- region ensures HasPredecessorIn(deps, region, v) {
      assert v !in done + [];
      NoneOpen(deps, v, Elements(done));
      var e :| e in deps && e.succ == v && e.pred !in Elements(done);
      assert Sound(ids, e) && Edge(e.pred, v) == e;
    }
    cycle := NoEntryMeansCycle(deps, region);
  }

  /** Kahn's algorithm with in-degree counters and a queue. The verdict is exact, and on
      success the visiting order is a topological order of all the ids. */
  method ValidateDag(ids: seq<string>, deps: seq<Edge<string>>)
    returns (verdict: DagVerdict, ghost order: seq<string>)
    ensures verdict == VerdictOf(ids, deps)
    ensures verdict == Valid ==>
      Distinct(order) && Elements(order) == Elements(ids) && Topological(deps, order)
  {
    order := [];
    if |ids| == 0 {
      return NoSubtasks, [];
    }
    var unique := HasUniqueIds(ids);
    if !unique {
      return DuplicateIds, [];
    }
    verdict := CheckEdges(ids, deps);
    if verdict != Valid {
      return;
    }
    var incoming, graph := CountIncoming(ids, deps);
    var queue := EntryVertices(ids, incoming);
    var visited := 0;
    assert order + queue == queue && Elements(order) == {};
    while queue != []
      invariant Underway(ids, deps, incoming, order, queue)
      invariant visited == |order|
      decreases |ids| - |order|
    {
      DistinctLength(ids, Elements(ids));
      DistinctLength(order + queue, Elements(ids));
      var current := queue[0];
      incoming, queue := Visit(ids, deps, SuccessorsIn(graph, current), incoming, queue, order);
      order := order + [current];
      visited := visited + 1;
    }
    assert order + queue == order;
    if visited != |ids| {
      var cycle := ShortfallIsCycle(ids, deps, incoming, order);
      return CycleFound, order;
    }
    DistinctLength(order, Elements(ids));
    DistinctLength(ids, Elements(ids));
    assert Elements(order) == Elements(ids);
    TopologicalMeansAcyclic(deps, order);
  }

  lemma {:induction false} ExistsWithout(edges: seq<Edge<string>>, region: set<string>) returns (v: string)
    requires region != {} && Acyclic(edges)
    ensures v in region && !HasPredecessorIn(edges, region, v)
  {
    if forall v <- region :: HasPredecessorIn(edges, region, v) {
      var _ := NoEntryMeansCycle(edges, region);
      assert false;
    }
    v :| v in region && !HasPredecessorIn(edges, region, v);
  }

  /** An accepted graph has a subtask nothing precedes and one nothing follows. */
  lemma {:induction false} AcceptedHasEntryAndExit(ids: seq<string>, deps: seq<Edge<string>>)
    returns (entry: string, exit: string)
    requires VerdictOf(ids, deps) == Valid
    ensures entry in ids && forall e <- deps :: e.succ != entry
    ensures exit in ids && forall e <- deps :: e.pred != exit
  {
    ValidIff(ids, deps);
    var region := Elements(ids);
    assert ids[0] in region;
    entry := ExistsWithout(deps, region);
    assert forall e <- deps | e.succ == entry :: e == Edge(e.pred, entry) && e.pred in region;
    var turned := Reversed(deps);
    if !Acyclic(turned) {
      var cycle :| IsCycle(turned, cycle);
      ReversedCycle(deps, cycle);
      assert false;
    }
    exit := ExistsWithout(turned, region);
    forall e <- deps ensures e.pred != exit {
      var k :| 0 <= k < |deps| && deps[k] == e;
      assert turned[k] == Edge(e.succ, e.pred) && turned[k] in turned;
    }
  }

  function Reversed(deps: seq<Edge<string>>): seq<Edge<string>> {
    seq(|deps|, k requires 0 <= k < |deps| => Edge(deps[k].succ, deps[k].pred))
  }

  lemma {:induction false} ReversedCycle(deps: seq<Edge<string>>, cycle: seq<string>)
    requires IsCycle(Reversed(deps), cycle)
    ensures !Acyclic(deps)
  {
    var n := |cycle|;
    var back := seq(n, k requires 0 <= k < n => cycle[n - 1 - k]);
    forall k | 1 <= k < n ensures Edge(back[k - 1], back[k]) in deps {
      assert Edge(cycle[n - 1 - k], cycle[n - k]) in Reversed(deps);
      var i :| 0 <= i < |deps| && Reversed(deps)[i] == Edge(cycle[n - 1 - k], cycle[n - k]);
      assert deps[i] == Edge(back[k - 1], back[k]);
    }
    assert IsCycle(deps, back);
  }
}
