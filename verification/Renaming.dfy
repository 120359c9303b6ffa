/** Two graphs that differ in the names of their nodes only. */
module Renaming {
  import opened Graphs
  import opened Search

  /** Renaming the nodes by f leads edges to edges. */
  ghost predicate Maps<A(!new), B(!new)>(g: Graph<A>, h: Graph<B>, f: map<A, B>) {
    && Closed(g) && g.Keys <= f.Keys
    && forall x, y | Edge(g, x, y) :: y in f && Edge(h, f[x], f[y])
  }

  lemma {:induction false} MapsWithin<A(!new), B(!new)>(g: Graph<A>, h: Graph<B>, f: map<A, B>, s: A, n: A, k: nat)
    requires Maps(g, h, f) && s in g && Within(g, s, n, k)
    ensures n in f && Within(h, f[s], f[n], k)
    decreases k
  {
    if k == 0 {
    } else {
      if Within(g, s, n, k - 1) {
        MapsWithin(g, h, f, s, n, k - 1);
      } else {
        var x :| x in g && Within(g, s, x, k - 1) && Edge(g, x, n);
        MapsWithin(g, h, f, s, x, k - 1);
        WithinStep(h, f[s], f[x], f[n], k - 1);
      }
    }
  }

  lemma MapsReaches<A(!new), B(!new)>(g: Graph<A>, h: Graph<B>, f: map<A, B>, s: A, n: A)
    requires Maps(g, h, f) && s in g && Reaches(g, s, n)
    ensures n in f && Reaches(h, f[s], f[n])
  {
    var k: nat :| Within(g, s, n, k);
    MapsWithin(g, h, f, s, n, k);
  }

  /** The maps f and b are inverse to each other and keep edges in both directions. */
  ghost predicate Renamed<A(!new), B(!new)>(g: Graph<A>, h: Graph<B>, f: map<A, B>, b: map<B, A>) {
    && Maps(g, h, f) && Maps(h, g, b) && f.Keys == g.Keys && b.Keys == h.Keys
    && (forall n | n in f :: f[n] in b && b[f[n]] == n)
    && (forall m | m in b :: b[m] in f && f[b[m]] == m)
  }

  lemma {:induction false} WithinRenamed<A(!new), B(!new)>(
      g: Graph<A>, h: Graph<B>, f: map<A, B>, b: map<B, A>, s: A, n: A, k: nat)
    requires Renamed(g, h, f, b) && s in f && n in f
    ensures Within(g, s, n, k) <==> Within(h, f[s], f[n], k)
  {
    if Within(g, s, n, k) {
      MapsWithin(g, h, f, s, n, k);
    }
    if Within(h, f[s], f[n], k) {
      MapsWithin(h, g, b, f[s], f[n], k);
    }
  }

  lemma ReachesRenamed<A(!new), B(!new)>(
      g: Graph<A>, h: Graph<B>, f: map<A, B>, b: map<B, A>, s: A, n: A)
    requires Renamed(g, h, f, b) && s in f && n in f
    ensures Reaches(g, s, n) <==> Reaches(h, f[s], f[n])
  {
    if Reaches(g, s, n) {
      MapsReaches(g, h, f, s, n);
    }
    if Reaches(h, f[s], f[n]) {
      MapsReaches(h, g, b, f[s], f[n]);
    }
  }

  lemma AcyclicRenamed<A(!new), B(!new)>(g: Graph<A>, h: Graph<B>, f: map<A, B>, b: map<B, A>)
    requires Renamed(g, h, f, b) && Acyclic(h)
    ensures Acyclic(g)
  {
    forall n, m | Edge(g, n, m)
      ensures !Reaches(g, m, n)
    {
      assert Edge(h, f[n], f[m]);
      ReachesRenamed(g, h, f, b, m, n);
    }
  }

  /******* Listings *******/

  predicate Named<A, B>(f: map<A, B>, ns: seq<A>) {
    forall i | 0 <= i < |ns| :: ns[i] in f
  }

  function Image<A, B>(f: map<A, B>, ns: seq<A>): (r: seq<B>)
    requires Named(f, ns)
    ensures |r| == |ns| && forall i | 0 <= i < |r| :: r[i] == f[ns[i]]
  {
    seq(|ns|, i requires 0 <= i < |ns| => f[ns[i]])
  }

  lemma ImageDistinct<A(!new), B(!new)>(
      g: Graph<A>, h: Graph<B>, f: map<A, B>, b: map<B, A>, ns: seq<A>)
    requires Renamed(g, h, f, b) && Named(f, ns) && Distinct(ns)
    ensures Distinct(Image(f, ns))
  {
    var ms := Image(f, ns);
    forall i, j | 0 <= i < j < |ms|
      ensures ms[i] != ms[j]
    {
      assert b[ms[i]] == ns[i] && b[ms[j]] == ns[j];
    }
  }

  lemma InImage<A(!new), B(!new)>(
      g: Graph<A>, h: Graph<B>, f: map<A, B>, b: map<B, A>, ns: seq<A>, m: B)
    requires Renamed(g, h, f, b) && Named(f, ns)
    ensures m in Image(f, ns) <==> m in b && b[m] in ns
  {
    var ms := Image(f, ns);
    if m in ms {
      var i :| 0 <= i < |ms| && ms[i] == m;
      assert ns[i] == b[m];
    }
    if m in b && b[m] in ns {
      var i :| 0 <= i < |ns| && ns[i] == b[m];
      assert ms[i] == m;
    }
  }

  lemma ReachedRenamed<A(!new), B(!new)>(
      g: Graph<A>, h: Graph<B>, f: map<A, B>, b: map<B, A>, starts: seq<A>, n: A)
    requires Renamed(g, h, f, b) && Named(f, starts) && n in f
    ensures ReachedFromSome(g, starts, n) <==> ReachedFromSome(h, Image(f, starts), f[n])
  {
    var ms := Image(f, starts);
    if ReachedFromSome(g, starts, n) {
      var i :| 0 <= i < |starts| && Reaches(g, starts[i], n);
      ReachesRenamed(g, h, f, b, starts[i], n);
      assert Reaches(h, ms[i], f[n]);
    }
    if ReachedFromSome(h, ms, f[n]) {
      var i :| 0 <= i < |ms| && Reaches(h, ms[i], f[n]);
      ReachesRenamed(g, h, f, b, starts[i], n);
    }
  }

  lemma StaysInside<T(!new)>(g: Graph<T>, starts: seq<T>, n: T)
    requires Closed(g) && (forall i | 0 <= i < |starts| :: starts[i] in g) && ReachedFromSome(g, starts, n)
    ensures n in g
  {
    var i :| 0 <= i < |starts| && Reaches(g, starts[i], n);
    ClosedHoldsReachable(g, g.Keys, starts[i], n);
  }

  /** A listing of exactly the reachable nodes stays one. */
  lemma ReachableImage<A(!new), B(!new)>(
      g: Graph<A>, h: Graph<B>, f: map<A, B>, b: map<B, A>, starts: seq<A>, ns: seq<A>)
    requires Renamed(g, h, f, b) && Named(f, starts) && Named(f, ns)
    requires forall n :: n in ns <==> ReachedFromSome(g, starts, n)
    ensures forall m :: m in Image(f, ns) <==> ReachedFromSome(h, Image(f, starts), m)
  {
    forall m
      ensures m in Image(f, ns) <==> ReachedFromSome(h, Image(f, starts), m)
    {
      InImage(g, h, f, b, ns, m);
      if ReachedFromSome(h, Image(f, starts), m) {
        StaysInside(h, Image(f, starts), m);
      }
      if m in b {
        ReachedRenamed(g, h, f, b, starts, b[m]);
      }
    }
  }

  lemma SuccessorsFirstImage<A(!new), B(!new)>(
      g: Graph<A>, h: Graph<B>, f: map<A, B>, b: map<B, A>, ns: seq<A>)
    requires Renamed(g, h, f, b) && Named(f, ns) && SuccessorsFirst(g, ns)
    ensures SuccessorsFirst(h, Image(f, ns))
  {
    var ms := Image(f, ns);
    forall i, m | 0 <= i < |ms| && Edge(h, ms[i], m)
      ensures m in ms[..i]
    {
      assert Edge(g, ns[i], b[m]);
      InImage(g, h, f, b, ns[..i], m);
      assert Image(f, ns[..i]) == ms[..i];
    }
  }

  ghost predicate AllNamed<A, B>(f: map<A, B>, segments: seq<seq<A>>) {
    forall i | 0 <= i < |segments| :: Named(f, segments[i])
  }

  ghost function Images<A, B>(f: map<A, B>, segments: seq<seq<A>>): (r: seq<seq<B>>)
    requires AllNamed(f, segments)
    ensures |r| == |segments| && forall i | 0 <= i < |r| :: r[i] == Image(f, segments[i])
  {
    seq(|segments|, i requires 0 <= i < |segments| => Image(f, segments[i]))
  }

  lemma ImageConcat<A, B>(f: map<A, B>, ns: seq<A>, ms: seq<A>)
    requires Named(f, ns) && Named(f, ms)
    ensures Named(f, ns + ms) && Image(f, ns + ms) == Image(f, ns) + Image(f, ms)
  {
  }

  lemma ImagesFront<A, B>(f: map<A, B>, segments: seq<seq<A>>)
    requires AllNamed(f, segments) && segments != []
    ensures var k := |segments| - 1;
      && AllNamed(f, segments[..k])
      && Joined(Images(f, segments)) == Joined(Images(f, segments[..k])) + Image(f, segments[k])
  {
    var k := |segments| - 1;
    assert AllNamed(f, segments[..k]);
    assert Images(f, segments)[..k] == Images(f, segments[..k]);
  }

  lemma {:induction false} JoinedImages<A, B>(f: map<A, B>, segments: seq<seq<A>>)
    requires AllNamed(f, segments)
    ensures Named(f, Joined(segments)) && Image(f, Joined(segments)) == Joined(Images(f, segments))
  {
    if segments == [] {
    } else {
      var k := |segments| - 1;
      ImagesFront(f, segments);
      JoinedImages(f, segments[..k]);
      ImageConcat(f, Joined(segments[..k]), segments[k]);
    }
  }

  lemma FarthestFirstImage<A(!new), B(!new)>(
      g: Graph<A>, h: Graph<B>, f: map<A, B>, b: map<B, A>, s: A, segment: seq<A>)
    requires Renamed(g, h, f, b) && s in f && Named(f, segment) && FarthestFirst(g, s, segment)
    ensures FarthestFirst(h, f[s], Image(f, segment))
  {
    var ms := Image(f, segment);
    forall i, j | 0 <= i < j < |ms|
      ensures NoFarther(h, f[s], ms[j], ms[i])
    {
      assert NoFarther(g, s, segment[j], segment[i]);
      forall k: nat | Within(h, f[s], ms[i], k)
        ensures Within(h, f[s], ms[j], k)
      {
        WithinRenamed(g, h, f, b, s, segment[i], k);
        WithinRenamed(g, h, f, b, s, segment[j], k);
      }
    }
  }

  lemma SegmentImage<A(!new), B(!new)>(
    g: Graph<A>, h: Graph<B>, f: map<A, B>, b: map<B, A>, starts: seq<A>, i: nat, segment: seq<A>)
    requires Renamed(g, h, f, b) && Named(f, starts) && i < |starts| && Named(f, segment)
    requires IsSegment(g, starts, i, segment)
    ensures IsSegment(h, Image(f, starts), i, Image(f, segment))
  {
    var ms := Image(f, starts);
    FarthestFirstImage(g, h, f, b, starts[i], segment);
    assert Image(f, starts[..i]) == ms[..i];
    forall m
      ensures m in Image(f, segment) <==> Reaches(h, ms[i], m) && !ReachedFromSome(h, ms[..i], m)
    {
      InImage(g, h, f, b, segment, m);
      if Reaches(h, ms[i], m) {
        ClosedHoldsReachable(h, h.Keys, ms[i], m);
      }
      if m in b {
        ReachesRenamed(g, h, f, b, starts[i], b[m]);
        ReachedRenamed(g, h, f, b, starts[..i], b[m]);
      }
    }
  }
}
