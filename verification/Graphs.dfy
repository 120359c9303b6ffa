/** Finite directed graphs: reachability, distance, cycles. */
module Graphs {

  /** The successors of each node, in the order in which they are visited. */
  type Graph<T> = map<T, seq<T>>

  predicate Closed<T>(g: Graph<T>) {
    forall x, y | x in g && y in g[x] :: y in g
  }

  predicate Edge<T>(g: Graph<T>, x: T, y: T) {
    x in g && y in g[x]
  }

  /** Node n can be reached from s in at most k steps. */
  ghost predicate Within<T>(g: Graph<T>, s: T, n: T, k: nat) {
    if k == 0 then n == s
    else Within(g, s, n, k - 1) || exists x | x in g :: Within(g, s, x, k - 1) && Edge(g, x, n)
  }

  ghost predicate Reaches<T>(g: Graph<T>, s: T, n: T) {
    exists k: nat :: Within(g, s, n, k)
  }

  lemma {:induction false} WithinSelf<T>(g: Graph<T>, s: T, k: nat)
    ensures Within(g, s, s, k)
  {
    if k == 0 {
    } else {
      WithinSelf(g, s, k - 1);
    }
  }

  lemma {:induction false} WithinStep<T>(g: Graph<T>, s: T, x: T, n: T, k: nat)
    requires Within(g, s, x, k) && Edge(g, x, n)
    ensures Within(g, s, n, k + 1)
  {
  }

  lemma {:induction false} WithinConcat<T>(g: Graph<T>, a: T, b: T, c: T, j: nat, k: nat)
    requires Within(g, a, b, j) && Within(g, b, c, k)
    ensures Within(g, a, c, j + k)
    decreases k
  {
    if k == 0 {
    } else {
      if Within(g, b, c, k - 1) {
        WithinConcat(g, a, b, c, j, k - 1);
      } else {
        var x :| x in g && Within(g, b, x, k - 1) && Edge(g, x, c);
        WithinConcat(g, a, b, x, j, k - 1);
      }
    }
  }

  lemma ReachesSelf<T>(g: Graph<T>, s: T)
    ensures Reaches(g, s, s)
  {
    assert Within(g, s, s, 0);
  }

  lemma ReachesEdge<T>(g: Graph<T>, x: T, y: T)
    requires Edge(g, x, y)
    ensures Reaches(g, x, y)
  {
    WithinSelf(g, x, 0);
    WithinStep(g, x, x, y, 0);
    assert Within(g, x, y, 1);
  }

  lemma ReachesTransitive<T>(g: Graph<T>, a: T, b: T, c: T)
    requires Reaches(g, a, b) && Reaches(g, b, c)
    ensures Reaches(g, a, c)
  {
    var j: nat :| Within(g, a, b, j);
    var k: nat :| Within(g, b, c, k);
    WithinConcat(g, a, b, c, j, k);
  }

  ghost predicate Subgraph<T(!new)>(g: Graph<T>, h: Graph<T>) {
    forall x, y | Edge(g, x, y) :: Edge(h, x, y)
  }

  lemma {:induction false} WithinSubgraph<T(!new)>(g: Graph<T>, h: Graph<T>, s: T, n: T, k: nat)
    requires Subgraph(g, h) && Within(g, s, n, k)
    ensures Within(h, s, n, k)
  {
    if k == 0 {
    } else {
      if Within(g, s, n, k - 1) {
        WithinSubgraph(g, h, s, n, k - 1);
      } else {
        var x :| x in g && Within(g, s, x, k - 1) && Edge(g, x, n);
        WithinSubgraph(g, h, s, x, k - 1);
        WithinStep(h, s, x, n, k - 1);
      }
    }
  }

  /** What is reached in a part of a graph is reached in the whole. */
  lemma ReachesSubgraph<T(!new)>(g: Graph<T>, h: Graph<T>, s: T, n: T)
    requires Subgraph(g, h) && Reaches(g, s, n)
    ensures Reaches(h, s, n)
  {
    var k: nat :| Within(g, s, n, k);
    WithinSubgraph(g, h, s, n, k);
  }

  ghost predicate ClosedUnderEdges<T(!new)>(g: Graph<T>, s: set<T>) {
    forall x, y | x in s && Edge(g, x, y) :: y in s
  }

  /** A set that no edge leaves holds everything that its members reach. */
  lemma {:induction false} ReachableInClosed<T(!new)>(g: Graph<T>, s: set<T>, a: T, n: T, k: nat)
    requires ClosedUnderEdges(g, s) && a in s && Within(g, a, n, k)
    ensures n in s
    decreases k
  {
    if k == 0 {
    } else {
      if Within(g, a, n, k - 1) {
        ReachableInClosed(g, s, a, n, k - 1);
      } else {
        var x :| x in g && Within(g, a, x, k - 1) && Edge(g, x, n);
        ReachableInClosed(g, s, a, x, k - 1);
      }
    }
  }

  lemma ClosedHoldsReachable<T(!new)>(g: Graph<T>, s: set<T>, a: T, n: T)
    requires ClosedUnderEdges(g, s) && a in s && Reaches(g, a, n)
    ensures n in s
  {
    var k: nat :| Within(g, a, n, k);
    ReachableInClosed(g, s, a, n, k);
  }

  /** No node reaches itself by way of an edge. */
  ghost predicate Acyclic<T(!new)>(g: Graph<T>) {
    forall x, y | Edge(g, x, y) :: !Reaches(g, y, x)
  }

  ghost function ReachSet<T(!new)>(g: Graph<T>, s: T): set<T> {
    set n | n in g.Keys && Reaches(g, s, n)
  }

  /** Along an edge of an acyclic graph fewer nodes remain reachable: every walk ends. */
  lemma ReachShrinks<T(!new)>(g: Graph<T>, x: T, y: T)
    requires Acyclic(g) && Edge(g, x, y)
    ensures ReachSet(g, y) < ReachSet(g, x)
    ensures |ReachSet(g, y)| < |ReachSet(g, x)|
  {
    ReachesEdge(g, x, y);
    ReachesSelf(g, x);
    forall n | n in ReachSet(g, y)
      ensures n in ReachSet(g, x)
    {
      ReachesTransitive(g, x, y, n);
    }
    assert x in ReachSet(g, x) && x !in ReachSet(g, y);
    SmallerSubset(ReachSet(g, y), ReachSet(g, x));
  }

  lemma SmallerSubset<T>(a: set<T>, b: set<T>)
    requires a < b
    ensures |a| < |b|
  {
    var x :| x in b && x !in a;
    assert b == a + (b - a) && x in b - a;
  }

  /** A walk of d edges starts at x. */
  ghost predicate Walk<T(!new)>(g: Graph<T>, x: T, d: nat) {
    d == 0 || exists y :: Edge(g, x, y) && Walk(g, y, d - 1)
  }

  ghost predicate StepsDown<T(!new)>(g: Graph<T>, depth: map<T, int>, x: T)
    requires x in depth
  {
    exists y :: Edge(g, x, y) && y in depth && depth[y] == depth[x] - 1
  }

  /** Edges lead to lower numbers, and from every positive number to the one just below. */
  ghost predicate Layered<T(!new)>(g: Graph<T>, depth: map<T, int>) {
    && (forall x | x in depth :: depth[x] >= 0)
    && (forall x, y | x in depth && Edge(g, x, y) :: y in depth && depth[y] < depth[x])
    && (forall x {:trigger StepsDown(g, depth, x)} | x in depth && depth[x] > 0 :: StepsDown(g, depth, x))
  }

  lemma {:induction false} LayeredWalk<T(!new)>(g: Graph<T>, depth: map<T, int>, x: T, d: nat)
    requires Layered(g, depth) && x in depth
    ensures Walk(g, x, d) <==> d <= depth[x]
    decreases d
  {
    if d == 0 {
    } else {
      if Walk(g, x, d) {
        var y :| Edge(g, x, y) && Walk(g, y, d - 1);
        LayeredWalk(g, depth, y, d - 1);
      }
      if d <= depth[x] {
        assert StepsDown(g, depth, x);
        var y :| Edge(g, x, y) && y in depth && depth[y] == depth[x] - 1;
        LayeredWalk(g, depth, y, d - 1);
      }
    }
  }

  /** The numbers are the lengths of the longest walks. */
  lemma LayeredLongest<T(!new)>(g: Graph<T>, depth: map<T, int>, x: T, d: nat)
    requires Layered(g, depth) && x in depth
    ensures d == depth[x] <==> Walk(g, x, d) && !Walk(g, x, d + 1)
  {
    LayeredWalk(g, depth, x, d);
    LayeredWalk(g, depth, x, d + 1);
  }

  /******* Sequences without repetition *******/

  ghost predicate Distinct<T>(s: seq<T>) {
    forall i, j | 0 <= i < j < |s| :: s[i] != s[j]
  }

  function Elements<T>(s: seq<T>): set<T> {
    set x | x in s
  }

  lemma DistinctSnoc<T>(s: seq<T>, x: T)
    requires Distinct(s) && x !in s
    ensures Distinct(s + [x]) && Elements(s + [x]) == Elements(s) + {x}
  {
  }

  lemma DistinctConcat<T>(a: seq<T>, b: seq<T>)
    requires Distinct(a) && Distinct(b) && Elements(a) !! Elements(b)
    ensures Distinct(a + b) && Elements(a + b) == Elements(a) + Elements(b)
  {
    forall i, j | 0 <= i < j < |a + b|
      ensures (a + b)[i] != (a + b)[j]
    {
      if i < |a| <= j {
        assert a[i] in Elements(a) && b[j - |a|] in Elements(b);
      }
    }
  }
}
