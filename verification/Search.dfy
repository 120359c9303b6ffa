/** Depth-first and breadth-first search, and the orders in which they list nodes. */
module Search {
  import opened Graphs

  /******* Depth-first search, listing nodes as they are finished *******/

  /** Finished nodes are discovered, listed once, and so are the successors they led to. */
  ghost predicate DfsInv<T(!new)>(g: Graph<T>, discovered: set<T>, finished: seq<T>) {
    && Distinct(finished)
    && Elements(finished) <= discovered <= g.Keys
    && forall x, y | x in finished && Edge(g, x, y) :: y in discovered
  }

  /** Nodes discovered but not finished; the search is inside of them. */
  function Open<T>(discovered: set<T>, finished: seq<T>): set<T> {
    discovered - Elements(finished)
  }

  ghost predicate AllReach<T>(g: Graph<T>, nodes: set<T>, u: T) {
    forall x | x in nodes :: Reaches(g, x, u)
  }

  ghost predicate ReachedFrom<T>(g: Graph<T>, u: T, nodes: set<T>) {
    forall x | x in nodes :: Reaches(g, u, x)
  }

  /** Every node is listed after all of its successors. */
  ghost predicate SuccessorsFirst<T(!new)>(g: Graph<T>, order: seq<T>) {
    forall i, y | 0 <= i < |order| && Edge(g, order[i], y) :: y in order[..i]
  }

  lemma ReachThrough<T(!new)>(g: Graph<T>, nodes: set<T>, u: T, v: T)
    requires AllReach(g, nodes, u) && Edge(g, u, v)
    ensures AllReach(g, nodes + {u}, v)
  {
    ReachesEdge(g, u, v);
    forall x | x in nodes
      ensures Reaches(g, x, v)
    {
      ReachesTransitive(g, x, u, v);
    }
  }

  lemma ReachedThrough<T(!new)>(g: Graph<T>, u: T, v: T, nodes: set<T>)
    requires ReachedFrom(g, v, nodes) && Edge(g, u, v)
    ensures ReachedFrom(g, u, nodes)
  {
    ReachesEdge(g, u, v);
    forall x | x in nodes
      ensures Reaches(g, u, x)
    {
      ReachesTransitive(g, u, v, x);
    }
  }

  /** Finishing a node whose successors have all been discovered. */
  lemma Finish<T(!new)>(g: Graph<T>, discovered: set<T>, finished: seq<T>, u: T)
    requires DfsInv(g, discovered, finished) && u in discovered && u !in finished
    requires forall y | Edge(g, u, y) :: y in discovered
    requires AllReach(g, Open(discovered, finished), u)
    ensures DfsInv(g, discovered, finished + [u])
    ensures Open(discovered, finished + [u]) == Open(discovered, finished) - {u}
    ensures Acyclic(g) && SuccessorsFirst(g, finished) ==> SuccessorsFirst(g, finished + [u])
  {
    DistinctSnoc(finished, u);
    if Acyclic(g) && SuccessorsFirst(g, finished) {
      var order := finished + [u];
      forall i, y | 0 <= i < |order| && Edge(g, order[i], y)
        ensures y in order[..i]
      {
        if i < |finished| {
          assert order[..i] == finished[..i];
        } else {
          assert order[..i] == finished;
          assert y !in Open(discovered, finished);
        }
      }
    }
  }

  method DfsVisit<T(==, !new)>(g: Graph<T>, u: T, discovered: set<T>, finished: seq<T>)
    returns (discovered': set<T>, finished': seq<T>)
    requires Closed(g) && u in g && DfsInv(g, discovered, finished)
    requires AllReach(g, Open(discovered, finished), u)
    ensures DfsInv(g, discovered', finished')
    ensures discovered + {u} <= discovered' && finished <= finished'
    ensures Open(discovered', finished') == Open(discovered, finished)
    ensures ReachedFrom(g, u, discovered' - discovered)
    ensures Acyclic(g) && SuccessorsFirst(g, finished) ==> SuccessorsFirst(g, finished')
    decreases g.Keys - discovered
  {
    discovered', finished' := discovered, finished;
    if u in discovered {
      return;
    }
    ReachesSelf(g, u);
    discovered' := discovered + {u};
    var i := 0;
    while i < |g[u]|
      invariant 0 <= i <= |g[u]|
      invariant DfsInv(g, discovered', finished')
      invariant discovered + {u} <= discovered' && finished <= finished'
      invariant Open(discovered', finished') == Open(discovered, finished) + {u}
      invariant ReachedFrom(g, u, discovered' - discovered)
      invariant Acyclic(g) && SuccessorsFirst(g, finished) ==> SuccessorsFirst(g, finished')
      invariant forall j | 0 <= j < i :: g[u][j] in discovered'
    {
      var v := g[u][i];
      ghost var before := discovered';
      if v !in discovered' {
        ReachThrough(g, Open(discovered, finished), u, v);
        discovered', finished' := DfsVisit(g, v, discovered', finished');
        ReachedThrough(g, u, v, discovered' - before);
      }
      i := i + 1;
    }
    Finish(g, discovered', finished', u);
    finished' := finished' + [u];
  }

  ghost predicate ReachedFromSome<T>(g: Graph<T>, starts: seq<T>, n: T) {
    exists i | 0 <= i < |starts| :: Reaches(g, starts[i], n)
  }

  lemma ReachedFromMore<T>(g: Graph<T>, starts: seq<T>, i: nat, n: T)
    requires i < |starts| && (ReachedFromSome(g, starts[..i], n) || Reaches(g, starts[i], n))
    ensures ReachedFromSome(g, starts[..i + 1], n)
  {
    if Reaches(g, starts[i], n) {
      assert starts[..i + 1][i] == starts[i];
    } else {
      var j :| 0 <= j < i && Reaches(g, starts[..i][j], n);
      assert starts[..i + 1][j] == starts[..i][j];
    }
  }

  /** Everything in the set is reached from one of the first i starts. */
  ghost predicate AllReached<T>(g: Graph<T>, starts: seq<T>, i: nat, nodes: set<T>)
    requires i <= |starts|
  {
    forall n | n in nodes :: ReachedFromSome(g, starts[..i], n)
  }

  lemma MoreReached<T(!new)>(g: Graph<T>, starts: seq<T>, i: nat, before: set<T>, after: set<T>)
    requires i < |starts| && AllReached(g, starts, i, before) && ReachedFrom(g, starts[i], after - before)
    ensures AllReached(g, starts, i + 1, after)
  {
    forall n | n in after
      ensures ReachedFromSome(g, starts[..i + 1], n)
    {
      ReachedFromMore(g, starts, i, n);
    }
  }

  lemma AllFound<T(!new)>(g: Graph<T>, starts: seq<T>, discovered: set<T>, finished: seq<T>)
    requires DfsInv(g, discovered, finished) && Open(discovered, finished) == {}
    requires forall j | 0 <= j < |starts| :: starts[j] in discovered
    requires AllReached(g, starts, |starts|, discovered)
    ensures forall n :: n in finished <==> ReachedFromSome(g, starts, n)
  {
    assert starts[..|starts|] == starts;
    forall x | x in discovered
      ensures x in finished
    {
      assert x !in Open(discovered, finished);
    }
    assert ClosedUnderEdges(g, discovered);
    forall n
      ensures n in finished <==> ReachedFromSome(g, starts, n)
    {
      assert n in finished ==> n in Elements(finished);
      if ReachedFromSome(g, starts, n) {
        var j :| 0 <= j < |starts| && Reaches(g, starts[j], n);
        ClosedHoldsReachable(g, discovered, starts[j], n);
      }
    }
  }

  /** The nodes reachable from the starts, each once, and successors first if there is no cycle. */
  method DepthFirst<T(==, !new)>(g: Graph<T>, starts: seq<T>) returns (result: seq<T>)
    requires Closed(g) && forall i | 0 <= i < |starts| :: starts[i] in g
    ensures Distinct(result)
    ensures forall n :: n in result <==> ReachedFromSome(g, starts, n)
    ensures Acyclic(g) ==> SuccessorsFirst(g, result)
  {
    result := [];
    var discovered := {};
    var i := 0;
    while i < |starts|
      invariant 0 <= i <= |starts|
      invariant DfsInv(g, discovered, result) && Open(discovered, result) == {}
      invariant forall j | 0 <= j < i :: starts[j] in discovered
      invariant AllReached(g, starts, i, discovered)
      invariant Acyclic(g) ==> SuccessorsFirst(g, result)
    {
      ghost var before := discovered;
      discovered, result := DfsVisit(g, starts[i], discovered, result);
      MoreReached(g, starts, i, before, discovered);
      i := i + 1;
    }
    AllFound(g, starts, discovered, result);
  }

  /******* Breadth-first search, listing nodes as they are taken from the queue *******/

  /** Node a is no farther from s than node b. */
  ghost predicate NoFarther<T>(g: Graph<T>, s: T, a: T, b: T) {
    forall k: nat :: Within(g, s, b, k) ==> Within(g, s, a, k)
  }

  /** Node b is at most one step farther from s than node a. */
  ghost predicate OneStep<T>(g: Graph<T>, s: T, a: T, b: T) {
    forall k: nat :: Within(g, s, a, k) ==> Within(g, s, b, k + 1)
  }

  /** The nodes in the order of their discovery, of which the first h are processed. */
  ghost predicate BfsInv<T(!new)>(g: Graph<T>, s: T, found: seq<T>, h: nat) {
    && h <= |found| && found != [] && found[0] == s
    && Distinct(found) && Elements(found) <= g.Keys
    && (forall i, y | 0 <= i < h && Edge(g, found[i], y) :: y in found)
    && (forall i, j | 0 <= i < j < |found| :: NoFarther(g, s, found[i], found[j]))
    && (h < |found| ==> forall j | 0 <= j < |found| :: OneStep(g, s, found[h], found[j]))
    && (forall i | 0 <= i < |found| :: Reaches(g, s, found[i]))
  }

  lemma IndexAfter<T>(found: seq<T>, h: nat, z: T) returns (m: nat)
    requires h <= |found| && z in found && z !in found[..h]
    ensures h <= m < |found| && found[m] == z
  {
    assert found == found[..h] + found[h..];
    var i :| 0 <= i < |found[h..]| && found[h..][i] == z;
    m := h + i;
  }

  /** No unprocessed node is nearer than the next one to be processed. */
  lemma {:induction false} HeadIsNearest<T(!new)>(g: Graph<T>, s: T, found: seq<T>, h: nat, z: T, k: nat)
    requires BfsInv(g, s, found, h) && h < |found| && z !in found[..h] && Within(g, s, z, k)
    ensures Within(g, s, found[h], k)
    decreases k
  {
    if z in found {
      var m := IndexAfter(found, h, z);
      assert m == h || NoFarther(g, s, found[h], found[m]);
    } else if k > 0 {
      if Within(g, s, z, k - 1) {
        HeadIsNearest(g, s, found, h, z, k - 1);
      } else {
        var x :| x in g && Within(g, s, x, k - 1) && Edge(g, x, z);
        HeadIsNearest(g, s, found, h, x, k - 1);
      }
    }
  }

  lemma {:induction false} NewcomerIsFar<T(!new)>(g: Graph<T>, s: T, found: seq<T>, h: nat, z: T, k: nat)
    requires BfsInv(g, s, found, h) && h < |found| && z !in found && Within(g, s, z, k)
    ensures k > 0 && Within(g, s, found[h], k - 1)
    decreases k
  {
    if k == 0 {
    } else {
      if Within(g, s, z, k - 1) {
        NewcomerIsFar(g, s, found, h, z, k - 1);
      } else {
        var x :| x in g && Within(g, s, x, k - 1) && Edge(g, x, z);
        HeadIsNearest(g, s, found, h, x, k - 1);
      }
    }
  }

  lemma Discover<T(!new)>(g: Graph<T>, s: T, found: seq<T>, h: nat, y: T)
    requires Closed(g) && BfsInv(g, s, found, h) && h < |found| && Edge(g, found[h], y) && y !in found
    ensures BfsInv(g, s, found + [y], h)
  {
    DistinctSnoc(found, y);
    forall i | 0 <= i < |found|
      ensures NoFarther(g, s, found[i], y)
    {
      forall k: nat | Within(g, s, y, k)
        ensures Within(g, s, found[i], k)
      {
        NewcomerIsFar(g, s, found, h, y, k);
        assert OneStep(g, s, found[h], found[i]);
      }
    }
    ReachesEdge(g, found[h], y);
    ReachesTransitive(g, s, found[h], y);
    assert OneStep(g, s, found[h], y);
  }

  lemma Advance<T(!new)>(g: Graph<T>, s: T, found: seq<T>, h: nat)
    requires BfsInv(g, s, found, h) && h < |found|
    requires forall y | Edge(g, found[h], y) :: y in found
    ensures BfsInv(g, s, found, h + 1)
  {
    if h + 1 < |found| {
      forall j | 0 <= j < |found|
        ensures OneStep(g, s, found[h + 1], found[j])
      {
        assert NoFarther(g, s, found[h], found[h + 1]) && OneStep(g, s, found[h], found[j]);
      }
    }
  }

  /** Processes the next node: its undiscovered successors join the queue. */
  method Enqueue<T(==, !new)>(g: Graph<T>, ghost s: T, node: T, queue: seq<T>, discovered: set<T>, ghost order: seq<T>)
    returns (queue': seq<T>, discovered': set<T>)
    requires Closed(g) && node in g
    requires discovered == Elements(order + [node] + queue) && BfsInv(g, s, order + [node] + queue, |order|)
    ensures discovered' == Elements(order + [node] + queue') && BfsInv(g, s, order + [node] + queue', |order| + 1)
  {
    queue', discovered' := queue, discovered;
    ghost var found := order + [node] + queue;
    var i := 0;
    while i < |g[node]|
      invariant 0 <= i <= |g[node]|
      invariant found == order + [node] + queue' && discovered' == Elements(found)
      invariant BfsInv(g, s, found, |order|) && found[|order|] == node
      invariant forall j | 0 <= j < i :: g[node][j] in found
    {
      var y := g[node][i];
      if y !in discovered' {
        Discover(g, s, found, |order|, y);
        discovered' := discovered' + {y};
        queue' := queue' + [y];
        found := found + [y];
      }
      i := i + 1;
    }
    Advance(g, s, found, |order|);
  }

  lemma HeadIsNew<T>(order: seq<T>, queue: seq<T>)
    requires queue != [] && Distinct(order + queue)
    ensures order + queue == order + [queue[0]] + queue[1..]
    ensures queue[0] !in order
    ensures Elements(order + [queue[0]]) > Elements(order)
  {
    var all := order + queue;
    assert all[|order|] == queue[0];
    forall i | 0 <= i < |order|
      ensures order[i] != queue[0]
    {
      assert all[i] == order[i];
    }
    assert queue[0] in Elements(order + [queue[0]]);
  }

  /** The nodes reachable from s, each once, nearest first. */
  method BreadthFirst<T(==, !new)>(g: Graph<T>, s: T) returns (order: seq<T>)
    requires Closed(g) && s in g
    ensures Distinct(order)
    ensures forall n :: n in order <==> Reaches(g, s, n)
    ensures forall i, j | 0 <= i < j < |order| :: NoFarther(g, s, order[i], order[j])
  {
    order := [];
    var queue, discovered := [s], {s};
    ReachesSelf(g, s);
    while queue != []
      invariant discovered == Elements(order + queue)
      invariant BfsInv(g, s, order + queue, |order|)
      decreases g.Keys - Elements(order)
    {
      var node := queue[0];
      HeadIsNew(order, queue);
      assert node in Elements(order + queue);
      queue, discovered := Enqueue(g, s, node, queue[1..], discovered, order);
      order := order + [node];
    }
    assert order + queue == order;
    Complete(g, s, order);
  }

  lemma Complete<T(!new)>(g: Graph<T>, s: T, order: seq<T>)
    requires BfsInv(g, s, order, |order|)
    ensures forall n :: n in order <==> Reaches(g, s, n)
  {
    assert ClosedUnderEdges(g, Elements(order));
    forall n | Reaches(g, s, n)
      ensures n in order
    {
      ClosedHoldsReachable(g, Elements(order), s, n);
    }
  }

  /******* Breadth-first segments *******/

  /** Lists what is farther from s before what is nearer. */
  ghost predicate FarthestFirst<T>(g: Graph<T>, s: T, segment: seq<T>) {
    forall i, j | 0 <= i < j < |segment| :: NoFarther(g, s, segment[j], segment[i])
  }

  ghost predicate NearestFirst<T>(g: Graph<T>, s: T, segment: seq<T>) {
    forall i, j | 0 <= i < j < |segment| :: NoFarther(g, s, segment[i], segment[j])
  }

  method TakeUnvisited<T(==, !new)>(ghost g: Graph<T>, ghost s: T, order: seq<T>, visited: set<T>)
    returns (segment: seq<T>, visited': set<T>)
    requires Distinct(order) && NearestFirst(g, s, order)
    ensures visited' == visited + Elements(order)
    ensures Distinct(segment) && Elements(segment) == Elements(order) - visited
    ensures NearestFirst(g, s, segment)
  {
    segment, visited' := [], visited;
    var i := 0;
    while i < |order|
      invariant 0 <= i <= |order|
      invariant visited' == visited + Elements(order[..i])
      invariant Distinct(segment) && Elements(segment) == Elements(order[..i]) - visited
      invariant NearestFirst(g, s, segment)
    {
      var node := order[i];
      assert order[..i + 1] == order[..i] + [node];
      assert node !in order[..i];
      if node !in visited' {
        forall j | 0 <= j < |segment|
          ensures NoFarther(g, s, segment[j], node)
        {
          assert segment[j] in Elements(segment);
          var k :| 0 <= k < i && order[k] == segment[j];
        }
        assert node !in Elements(segment);
        DistinctSnoc(segment, node);
        visited' := visited' + {node};
        segment := segment + [node];
      }
      i := i + 1;
    }
    assert order[..i] == order;
  }

  function Backwards<T>(s: seq<T>): (r: seq<T>)
    ensures |r| == |s| && forall i | 0 <= i < |r| :: r[i] == s[|s| - 1 - i]
  {
    seq(|s|, i requires 0 <= i < |s| => s[|s| - 1 - i])
  }

  lemma BackwardsSegment<T(!new)>(g: Graph<T>, s: T, segment: seq<T>)
    requires Distinct(segment) && NearestFirst(g, s, segment)
    ensures Distinct(Backwards(segment)) && FarthestFirst(g, s, Backwards(segment))
    ensures Elements(Backwards(segment)) == Elements(segment)
  {
    var r := Backwards(segment);
    forall x | x in segment
      ensures x in r
    {
      var i :| 0 <= i < |segment| && segment[i] == x;
      assert r[|segment| - 1 - i] == x;
    }
  }

  function Joined<T>(segments: seq<seq<T>>): seq<T> {
    if segments == [] then [] else Joined(segments[..|segments| - 1]) + segments[|segments| - 1]
  }

  /** Segment i holds what start i reaches and no earlier start does, farthest first. */
  ghost predicate IsSegment<T(!new)>(g: Graph<T>, starts: seq<T>, i: nat, segment: seq<T>)
    requires i < |starts|
  {
    && FarthestFirst(g, starts[i], segment)
    && forall n :: n in segment <==> Reaches(g, starts[i], n) && !ReachedFromSome(g, starts[..i], n)
  }

  lemma ReachedStep<T>(g: Graph<T>, starts: seq<T>, i: nat, n: T)
    requires i < |starts|
    ensures ReachedFromSome(g, starts[..i + 1], n) <==> ReachedFromSome(g, starts[..i], n) || Reaches(g, starts[i], n)
  {
    if ReachedFromSome(g, starts[..i], n) || Reaches(g, starts[i], n) {
      ReachedFromMore(g, starts, i, n);
    }
    if ReachedFromSome(g, starts[..i + 1], n) {
      var j :| 0 <= j < i + 1 && Reaches(g, starts[..i + 1][j], n);
      assert j < i ==> starts[..i][j] == starts[..i + 1][j];
    }
  }

  /** The nodes reachable from one start that no earlier start reached. */
  method NextSegment<T(==, !new)>(g: Graph<T>, starts: seq<T>, i: nat, visited: set<T>)
    returns (segment: seq<T>, visited': set<T>)
    requires Closed(g) && i < |starts| && starts[i] in g
    requires forall n :: n in visited <==> ReachedFromSome(g, starts[..i], n)
    ensures IsSegment(g, starts, i, segment) && Distinct(segment)
    ensures Elements(segment) !! visited && visited' == visited + Elements(segment)
    ensures forall n :: n in visited' <==> ReachedFromSome(g, starts[..i + 1], n)
  {
    var order := BreadthFirst(g, starts[i]);
    segment, visited' := TakeUnvisited(g, starts[i], order, visited);
    BackwardsSegment(g, starts[i], segment);
    ghost var taken := segment;
    segment := Backwards(segment);
    forall n
      ensures n in segment <==> n in order && n !in visited
    {
      assert n in segment <==> n in Elements(segment);
      assert n in Elements(taken) <==> n in Elements(order) && n !in visited;
    }
    forall n
      ensures n in visited' <==> ReachedFromSome(g, starts[..i + 1], n)
    {
      ReachedStep(g, starts, i, n);
      assert n in visited' <==> n in visited || n in order;
    }
  }

  method ReversedBreadthFirst<T(==, !new)>(
      g: Graph<T>, starts: seq<T>) returns (result: seq<T>, ghost segments: seq<seq<T>>)
    requires Closed(g) && forall i | 0 <= i < |starts| :: starts[i] in g
    ensures result == Joined(segments) && |segments| == |starts|
    ensures Distinct(result) && forall n :: n in result <==> ReachedFromSome(g, starts, n)
    ensures forall i | 0 <= i < |segments| :: IsSegment(g, starts, i, segments[i])
  {
    result, segments := [], [];
    var visited := {};
    var i := 0;
    while i < |starts|
      invariant 0 <= i <= |starts|
      invariant result == Joined(segments) && |segments| == i
      invariant Distinct(result) && Elements(result) == visited
      invariant forall n :: n in visited <==> ReachedFromSome(g, starts[..i], n)
      invariant forall j | 0 <= j < i :: IsSegment(g, starts, j, segments[j])
    {
      var segment: seq<T>;
      segment, visited := NextSegment(g, starts, i, visited);
      DistinctConcat(result, segment);
      result := result + segment;
      assert (segments + [segment])[..i] == segments;
      segments := segments + [segment];
      i := i + 1;
    }
    assert starts[..i] == starts;
    forall n
      ensures n in result <==> ReachedFromSome(g, starts, n)
    {
      assert n in result <==> n in visited;
    }
  }
}
