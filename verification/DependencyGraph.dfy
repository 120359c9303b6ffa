/** The in-memory dependency graph, kept up to date by messages, and its recursive queries. */
module DependencyGraph {
  import opened Wrappers
  import opened Odf
  import opened Graphs
  import opened Search
  import opened Renaming
  import opened DependencyModel

  /******* Laws of the plain graph *******/

  ghost predicate Coherent(p: Plain) {
    forall d | d in p.deps :: d.0 in p.ids && d.1 in p.ids
  }

  /** An update gives a dataset exactly the new upstream and leaves that of all others alone. */
  lemma UpdatedUpstream(p: Plain, id: DatasetId, upstream: set<DatasetId>, other: DatasetId)
    ensures UpstreamOf(WithUpstream(p, id, upstream), other) == if other == id then upstream else UpstreamOf(p, other)
  {
    var q := WithUpstream(p, id, upstream);
    forall up
      ensures up in UpstreamOf(q, other) <==> up in if other == id then upstream else UpstreamOf(p, other)
    {
      assert up in UpstreamOf(q, other) <==> (up, other) in q.deps;
      assert up in UpstreamOf(p, other) <==> (up, other) in p.deps;
    }
  }

  lemma {:induction false} HistoryCoherent(p: Plain, ms: seq<Message>)
    requires Coherent(p)
    ensures Coherent(History(p, ms))
  {
    if ms == [] {
    } else {
      HistoryCoherent(p, ms[..|ms| - 1]);
    }
  }

  lemma {:induction false} SomeIndexFree(nodes: set<nat>) returns (n: nat)
    ensures forall m | m in nodes :: m < n
  {
    n := 0;
    if nodes != {} {
      var m :| m in nodes;
      var k := SomeIndexFree(nodes - {m});
      n := if k <= m then m + 1 else k;
      forall x | x in nodes
        ensures x < n
      {
        assert x == m || x in nodes - {m};
      }
    }
  }

  /******* Changes of one dataset's upstream, dependency by dependency *******/

  function Pairs(upstream: set<DatasetId>, id: DatasetId): set<(DatasetId, DatasetId)> {
    set up | up in upstream :: (up, id)
  }

  function Minus(p: Plain, id: DatasetId, upstream: set<DatasetId>): Plain {
    Plain(p.ids, p.deps - Pairs(upstream, id))
  }

  function Plus(p: Plain, id: DatasetId, upstream: set<DatasetId>): Plain {
    Plain(p.ids + upstream + {id}, p.deps + Pairs(upstream, id))
  }

  lemma PairsStep(upstream: set<DatasetId>, id: DatasetId, up: DatasetId)
    ensures Pairs(upstream + {up}, id) == Pairs(upstream, id) + {(up, id)}
  {
  }

  lemma MinusStep(p: Plain, id: DatasetId, upstream: set<DatasetId>, up: DatasetId)
    requires id in p.ids && up in p.ids
    ensures WithoutDependency(Minus(p, id, upstream), up, id) == Minus(p, id, upstream + {up})
  {
    PairsStep(upstream, id, up);
    assert p.ids + {up, id} == p.ids;
    assert p.deps - Pairs(upstream, id) - {(up, id)} == p.deps - Pairs(upstream + {up}, id);
  }

  lemma PlusStep(p: Plain, id: DatasetId, upstream: set<DatasetId>, up: DatasetId)
    ensures WithDependency(Plus(p, id, upstream), up, id) == Plus(p, id, upstream + {up})
    ensures WithDependency(p, up, id) == Plus(p, id, {up})
  {
    PairsStep(upstream, id, up);
    assert Pairs({up}, id) == {(up, id)};
    assert p.ids + upstream + {id} + {up, id} == p.ids + (upstream + {up}) + {id};
    assert p.deps + Pairs(upstream, id) + {(up, id)} == p.deps + Pairs(upstream + {up}, id);
    assert p.ids + {up, id} == p.ids + {up} + {id};
  }

  lemma PlusNothing(p: Plain, id: DatasetId)
    requires id in p.ids
    ensures Plus(p, id, {}) == p && Minus(p, id, {}) == p
  {
    assert p.ids + {} + {id} == p.ids;
  }

  function WithNodes(p: Plain, up: DatasetId, down: DatasetId): Plain {
    p.(ids := p.ids + {up} + {down})
  }

  lemma WithBothNodes(p: Plain, up: DatasetId, down: DatasetId)
    ensures var q := WithNodes(p, up, down);
      && WithDependency(q, up, down) == WithDependency(p, up, down)
      && WithoutDependency(q, up, down) == WithoutDependency(p, up, down)
      && ((up, down) in p.deps ==> q == WithDependency(p, up, down))
      && ((up, down) !in p.deps ==> q == WithoutDependency(p, up, down))
  {
    assert p.ids + {up} + {down} == p.ids + {up, down};
  }

  class State {
    var nodes: map<nat, DatasetId>
    var edges: seq<(nat, nat)>
    var indices: map<DatasetId, nat>
    var initiallyScanned: bool

    ghost function Value(): Indexed
      reads this
    {
      Indexed(nodes, edges, indices)
    }

    ghost predicate Valid()
      reads this
    {
      Live(Value())
    }

    /** The plain graph that the indexed one stands for. */
    ghost function Contents(): Plain
      reads this
    {
      View(Value())
    }

    constructor ()
      ensures Valid() && Contents() == Plain({}, {}) && !initiallyScanned
    {
      nodes, edges, indices, initiallyScanned := map[], [], map[], false;
    }

    method GetOrCreateNode(id: DatasetId) returns (n: nat)
      requires Valid()
      modifies this
      ensures Valid() && id in indices && indices[id] == n
      ensures Contents() == old(Contents()).(ids := old(Contents()).ids + {id})
      ensures forall other | other in old(indices) :: other in indices && indices[other] == old(indices)[other]
      ensures initiallyScanned == old(initiallyScanned)
    {
      if id in indices {
        n := indices[id];
        assert Contents().ids + {id} == Contents().ids;
      } else {
        ghost var free := SomeIndexFree(nodes.Keys);
        assert free !in nodes.Keys;
        n :| n !in nodes.Keys;
        NodeAdded(Value(), n, id);
        nodes := nodes[n := id];
        indices := indices[id := n];
      }
    }

    method EndNodes(up: DatasetId, down: DatasetId) returns (u: nat, d: nat)
      requires Valid()
      modifies this
      ensures Valid() && initiallyScanned == old(initiallyScanned)
      ensures up in indices && indices[up] == u && down in indices && indices[down] == d
      ensures Contents() == WithNodes(old(Contents()), up, down)
      ensures Depends(Value(), up, down) <==> (up, down) in old(Contents()).deps
    {
      u := GetOrCreateNode(up);
      d := GetOrCreateNode(down);
      assert Depends(Value(), up, down) <==> (up, down) in Contents().deps;
    }

    method AddDependency(up: DatasetId, down: DatasetId)
      requires Valid()
      modifies this
      ensures Valid() && Contents() == WithDependency(old(Contents()), up, down)
      ensures initiallyScanned == old(initiallyScanned)
    {
      var u, d := EndNodes(up, down);
      WithBothNodes(old(Contents()), up, down);
      if (u, d) !in edges {
        EdgeAdded(Value(), up, down);
        edges := edges + [(u, d)];
      }
    }

    method FindEdge(u: nat, d: nat) returns (k: Option<nat>)
      ensures k.Some? <==> (u, d) in edges
      ensures k.Some? ==> k.value < |edges| && edges[k.value] == (u, d)
    {
      var i := 0;
      while i < |edges|
        invariant 0 <= i <= |edges|
        invariant (u, d) !in edges[..i]
      {
        if edges[i] == (u, d) {
          return Some(i);
        }
        i := i + 1;
      }
      return None;
    }

    method RemoveDependency(up: DatasetId, down: DatasetId)
      requires Valid()
      modifies this
      ensures Valid() && Contents() == WithoutDependency(old(Contents()), up, down)
      ensures initiallyScanned == old(initiallyScanned)
    {
      var u, d := EndNodes(up, down);
      WithBothNodes(old(Contents()), up, down);
      var k := FindEdge(u, d);
      if k.Some? {
        EdgeRemoved(Value(), up, down, k.value);
        edges := edges[..k.value] + edges[k.value + 1..];
      }
    }

    method RemoveDataset(id: DatasetId)
      requires Valid() && id in indices
      modifies this
      ensures Valid() && Contents() == WithoutDataset(old(Contents()), id)
      ensures initiallyScanned == old(initiallyScanned)
    {
      NodeRemoved(Value(), id);
      var n := indices[id];
      edges := Detached(edges, n);
      nodes := nodes - {n};
      indices := indices - {id};
    }

    /** The datasets that the given one depends on. */
    method ExistingUpstream(id: DatasetId) returns (r: set<DatasetId>)
      requires Valid() && id in indices
      ensures r == UpstreamOf(Contents(), id)
    {
      var ns := Neighbours(edges, indices[id], false);
      ghost var x := Value();
      forall m: nat
        ensures m in ns <==> (m, indices[id]) in edges
      {
        NeighboursAre(edges, indices[id], false, m);
      }
      r := set m | m in ns :: nodes[m];
      forall up
        ensures up in r <==> up in UpstreamOf(Contents(), id)
      {
        assert up in UpstreamOf(Contents(), id) <==> (up, id) in Contents().deps;
        assert (up, id) in Contents().deps <==> Depends(x, up, id);
        if Depends(x, up, id) {
          assert indices[up] in ns;
        }
      }
    }

    method RemoveObsolete(id: DatasetId, obsolete: set<DatasetId>)
      requires Valid() && id in Contents().ids && obsolete <= Contents().ids
      modifies this
      ensures Valid() && initiallyScanned == old(initiallyScanned)
      ensures Contents() == Minus(old(Contents()), id, obsolete)
    {
      var rest := obsolete;
      ghost var done, before := {}, Contents();
      assert id in before.ids;
      PlusNothing(before, id);
      while rest != {}
        invariant Valid() && initiallyScanned == old(initiallyScanned)
        invariant forall up | up in obsolete :: up in rest || up in done
        invariant rest <= obsolete && done <= obsolete
        invariant Contents() == Minus(before, id, done)
        decreases rest
      {
        var up :| up in rest;
        MinusStep(before, id, done, up);
        RemoveDependency(up, id);
        rest := rest - {up};
        done := done + {up};
      }
      assert done == obsolete;
    }

    method AddNew(id: DatasetId, added: set<DatasetId>)
      requires Valid() && id in indices
      modifies this
      ensures Valid() && initiallyScanned == old(initiallyScanned)
      ensures Contents() == Plus(old(Contents()), id, added)
    {
      var rest := added;
      ghost var done, before := {}, Contents();
      assert id in before.ids;
      PlusNothing(before, id);
      while rest != {}
        invariant Valid() && initiallyScanned == old(initiallyScanned)
        invariant forall up | up in added :: up in rest || up in done
        invariant done <= added
        invariant Contents() == Plus(before, id, done)
        decreases rest
      {
        var up :| up in rest;
        PlusStep(before, id, done, up);
        AddDependency(up, id);
        rest := rest - {up};
        done := done + {up};
      }
      assert done == added;
    }

    method UpdateDependencies(id: DatasetId, newUpstream: set<DatasetId>)
      requires Valid() && id in indices
      modifies this
      ensures Valid() && Contents() == WithUpstream(old(Contents()), id, newUpstream)
      ensures initiallyScanned == old(initiallyScanned)
    {
      var existing := ExistingUpstream(id);
      ghost var before := Contents();
      RemoveObsolete(id, existing - newUpstream);
      AddNew(id, newUpstream - existing);
      UpdateIsExact(before, id, existing, newUpstream);
    }

    /** One message; a message about a dataset that is not there changes nothing. */
    method Consume(m: Message) returns (r: Result<(), GraphError>)
      requires Valid()
      modifies this
      ensures Valid() && initiallyScanned == old(initiallyScanned)
      ensures var expected := Consumed(old(Contents()), m);
        && (r.Ok? <==> expected.Ok?)
        && (r.Err? ==> r.error == expected.error)
        && Contents() == if expected.Ok? then expected.value else old(Contents())
      ensures r.Ok? ==> Changed(old(Contents()), m, Contents())
      ensures r.Err? ==> Contents() == old(Contents()) && m.id !in old(Contents()).ids
    {
      ConsumedChanges(Contents(), m);
      match m {
        case Created(id) =>
          var _ := GetOrCreateNode(id);
        case Deleted(id) =>
          if id !in indices {
            return Err(DatasetNotFound(id));
          }
          RemoveDataset(id);
        case DependenciesUpdated(id, newUpstream) =>
          if id !in indices {
            return Err(DatasetNotFound(id));
          }
          UpdateDependencies(id, Elements(newUpstream));
      }
      r := Ok(());
    }

    /** Over any history of messages the indexed graph agrees with the plain one. */
    method ConsumeAll(ms: seq<Message>)
      requires Valid()
      modifies this
      ensures Valid() && Contents() == History(old(Contents()), ms)
      ensures initiallyScanned == old(initiallyScanned)
    {
      var i := 0;
      while i < |ms|
        invariant 0 <= i <= |ms|
        invariant Valid() && initiallyScanned == old(initiallyScanned)
        invariant Contents() == History(old(Contents()), ms[..i])
      {
        var _ := Consume(ms[i]);
        assert ms[..i + 1][..i] == ms[..i];
        i := i + 1;
      }
      assert ms[..i] == ms;
    }

    method ScanOne(d: Dependencies)
      requires Valid()
      modifies this
      ensures Valid() && initiallyScanned == old(initiallyScanned)
      ensures Contents() == Union(old(Contents()), Listed([d]))
    {
      ghost var before := Contents();
      OneListed(before, d);
      if d.upstream == [] {
        var _ := GetOrCreateNode(d.downstream);
        return;
      }
      var i := 0;
      while i < |d.upstream|
        invariant 0 <= i <= |d.upstream|
        invariant Valid() && initiallyScanned == old(initiallyScanned)
        invariant i == 0 ==> Contents() == before
        invariant i > 0 ==> Contents() == Plus(before, d.downstream, Elements(d.upstream[..i]))
      {
        PlusStep(before, d.downstream, Elements(d.upstream[..i]), d.upstream[i]);
        AddDependency(d.upstream[i], d.downstream);
        ElementsStep(d.upstream, i);
        i := i + 1;
      }
      assert d.upstream[..i] == d.upstream;
    }

    /** The initial scan adds everything that is listed before the first failure, the first time
        only; a scan that was cut short counts as done. */
    method InitialScan(listing: Listing)
      requires Valid()
      modifies this
      ensures Valid() && initiallyScanned
      ensures Contents() ==
        if old(initiallyScanned) then old(Contents()) else Union(old(Contents()), Listed(UntilFailure(listing)))
    {
      if initiallyScanned {
        return;
      }
      ghost var ds := UntilFailure(listing);
      var i := 0;
      assert Union(Contents(), Listed([])) == Contents();
      while i < |listing| && listing[i].Ok?
        invariant 0 <= i <= |ds|
        invariant Valid()
        invariant Contents() == Union(old(Contents()), Listed(ds[..i]))
      {
        ScanOne(listing[i].value);
        ListedStep(old(Contents()), ds, i);
        i := i + 1;
      }
      assert ds[..i] == ds;
      initiallyScanned := true;
    }

    method NodesOf(ids: seq<DatasetId>) returns (r: Result<seq<nat>, GraphError>)
      requires Valid()
      ensures r.Ok? <==> forall i | 0 <= i < |ids| :: ids[i] in Contents().ids
      ensures r.Ok? ==> Named(nodes, r.value) && Image(nodes, r.value) == ids
    {
      var ns: seq<nat> := [];
      var i := 0;
      while i < |ids|
        invariant 0 <= i <= |ids|
        invariant |ns| == i && Named(nodes, ns) && Image(nodes, ns) == ids[..i]
        invariant forall j | 0 <= j < i :: ids[j] in indices
      {
        if ids[i] !in indices {
          return Err(DatasetNotFound(ids[i]));
        }
        ns := ns + [indices[ids[i]]];
        assert ids[..i + 1] == ids[..i] + [ids[i]];
        i := i + 1;
      }
      assert ids[..i] == ids;
      r := Ok(ns);
    }

    /** The given datasets and all that depend on them, directly or not: each once, and, unless
        there is a cycle, every dataset after all that depend on it. */
    method RecursiveDownstream(ids: seq<DatasetId>) returns (r: Result<seq<DatasetId>, GraphError>)
      requires Valid()
      ensures r.Ok? <==> forall i | 0 <= i < |ids| :: ids[i] in Contents().ids
      ensures r.Ok? ==> Distinct(r.value)
      ensures r.Ok? ==> forall id :: id in r.value <==> ReachedFromSome(IdGraph(Contents(), true), ids, id)
      ensures r.Ok? && Acyclic(IdGraph(Contents(), true)) ==> SuccessorsFirst(IdGraph(Contents(), true), r.value)
    {
      var starts := NodesOf(ids);
      if starts.Err? {
        return Err(starts.error);
      }
      IndexGraphEdges(Value(), true);
      var graph := map n | n in nodes :: Neighbours(edges, n, true);
      assert graph == IndexGraph(Value(), true);
      var order := DepthFirst(graph, starts.value);
      ListedDownstream(Value(), starts.value, order);
      r := Ok(Image(nodes, order));
    }

    /** The given datasets and all that they depend on, directly or not: each once.  The result
        is cut into one segment for each start, with what no earlier start led to, farthest
        from the start first. */
    method RecursiveUpstream(
        ids: seq<DatasetId>) returns (r: Result<seq<DatasetId>, GraphError>, ghost segments: seq<seq<DatasetId>>)
      requires Valid()
      ensures r.Ok? <==> forall i | 0 <= i < |ids| :: ids[i] in Contents().ids
      ensures r.Ok? ==> Distinct(r.value)
      ensures r.Ok? ==> forall id :: id in r.value <==> ReachedFromSome(IdGraph(Contents(), false), ids, id)
      ensures r.Ok? ==> r.value == Joined(segments) && |segments| == |ids|
      ensures r.Ok? ==> forall i | 0 <= i < |ids| :: IsSegment(IdGraph(Contents(), false), ids, i, segments[i])
    {
      segments := [];
      var starts := NodesOf(ids);
      if starts.Err? {
        r := Err(starts.error);
        return;
      }
      IndexGraphEdges(Value(), false);
      var graph := map n | n in nodes :: Neighbours(edges, n, false);
      assert graph == IndexGraph(Value(), false);
      var order; ghost var found;
      order, found := ReversedBreadthFirst(graph, starts.value);
      ListedUpstream(Value(), starts.value, order, found);
      segments := Images(nodes, found);
      r := Ok(Image(nodes, order));
    }
  }

  lemma UpdateIsExact(p: Plain, id: DatasetId, existing: set<DatasetId>, upstream: set<DatasetId>)
    requires Coherent(p) && id in p.ids && existing == UpstreamOf(p, id)
    ensures Plus(Minus(p, id, existing - upstream), id, upstream - existing) == WithUpstream(p, id, upstream)
  {
    var q := Plus(Minus(p, id, existing - upstream), id, upstream - existing);
    forall up, down
      ensures (up, down) in q.deps <==> (up, down) in WithUpstream(p, id, upstream).deps
    {
      assert down == id ==> (up in existing <==> (up, down) in p.deps);
    }
    assert q.deps == WithUpstream(p, id, upstream).deps;
    assert existing <= p.ids;
    assert q.ids == p.ids + upstream;
  }

  lemma ElementsStep<T>(s: seq<T>, i: nat)
    requires i < |s|
    ensures Elements(s[..i + 1]) == Elements(s[..i]) + {s[i]}
    ensures i == 0 ==> Elements(s[..i + 1]) == {s[i]}
  {
    assert s[..i + 1] == s[..i] + [s[i]];
  }

  lemma OneListed(p: Plain, d: Dependencies)
    ensures Union(p, Listed([d])) == Plus(p, d.downstream, Elements(d.upstream))
    ensures d.upstream == [] ==> Union(p, Listed([d])) == p.(ids := p.ids + {d.downstream})
  {
    assert Listed([d]).ids == {d.downstream} + Elements(d.upstream);
    assert Listed([d]).deps == Pairs(Elements(d.upstream), d.downstream);
    assert p.ids + ({d.downstream} + Elements(d.upstream)) == p.ids + Elements(d.upstream) + {d.downstream};
  }

  lemma ListedStep(p: Plain, ds: seq<Dependencies>, i: nat)
    requires i < |ds|
    ensures Union(Union(p, Listed(ds[..i])), Listed([ds[i]])) == Union(p, Listed(ds[..i + 1]))
  {
    assert ds[..i + 1] == ds[..i] + [ds[i]];
    assert Listed(ds[..i + 1]).ids == Listed(ds[..i]).ids + Listed([ds[i]]).ids;
    assert Listed(ds[..i + 1]).deps == Listed(ds[..i]).deps + Listed([ds[i]]).deps;
  }

  /** Everything is scanned exactly if no entry of the listing failed. */
  lemma {:induction false} ScanCompleteIff(listing: Listing)
    ensures |UntilFailure(listing)| == |listing| <==> forall i | 0 <= i < |listing| :: listing[i].Ok?
  {
    var ds := UntilFailure(listing);
    if |ds| == |listing| {
      forall i | 0 <= i < |listing| ensures listing[i].Ok? {
        assert listing[i] == Ok(ds[i]);
      }
    }
  }

  lemma ListedDownstream(x: Indexed, starts: seq<nat>, order: seq<nat>)
    requires Live(x) && Named(x.nodes, starts) && Distinct(order)
    requires forall n :: n in order <==> ReachedFromSome(IndexGraph(x, true), starts, n)
    requires Acyclic(IndexGraph(x, true)) ==> SuccessorsFirst(IndexGraph(x, true), order)
    ensures Named(x.nodes, order) && Distinct(Image(x.nodes, order))
    ensures forall id :: id in Image(x.nodes, order) <==>
      ReachedFromSome(IdGraph(View(x), true), Image(x.nodes, starts), id)
    ensures Acyclic(IdGraph(View(x), true)) ==> SuccessorsFirst(IdGraph(View(x), true), Image(x.nodes, order))
  {
    var g, h := IndexGraph(x, true), IdGraph(View(x), true);
    GraphsAgree(x, true);
    AllInside(g, starts, order);
    ImageDistinct(g, h, x.nodes, x.indices, order);
    ReachableImage(g, h, x.nodes, x.indices, starts, order);
    if Acyclic(h) {
      AcyclicRenamed(g, h, x.nodes, x.indices);
      SuccessorsFirstImage(g, h, x.nodes, x.indices, order);
    }
  }

  lemma AllInside<T(!new)>(g: Graph<T>, starts: seq<T>, order: seq<T>)
    requires Closed(g) && forall i | 0 <= i < |starts| :: starts[i] in g
    requires forall n :: n in order <==> ReachedFromSome(g, starts, n)
    ensures forall i | 0 <= i < |order| :: order[i] in g
  {
    forall i | 0 <= i < |order|
      ensures order[i] in g
    {
      assert order[i] in order;
      StaysInside(g, starts, order[i]);
    }
  }

  lemma {:induction false} InJoined<T>(segments: seq<seq<T>>, i: nat, n: T)
    requires i < |segments| && n in segments[i]
    ensures n in Joined(segments)
  {
    var k := |segments| - 1;
    if i < k {
      InJoined(segments[..k], i, n);
    }
  }

  lemma {:induction false} ListedUpstream(x: Indexed, starts: seq<nat>, order: seq<nat>, found: seq<seq<nat>>)
    requires Live(x) && Named(x.nodes, starts) && Distinct(order) && order == Joined(found) && |found| == |starts|
    requires forall n :: n in order <==> ReachedFromSome(IndexGraph(x, false), starts, n)
    requires forall i | 0 <= i < |found| :: IsSegment(IndexGraph(x, false), starts, i, found[i])
    ensures Named(x.nodes, order) && Distinct(Image(x.nodes, order)) && AllNamed(x.nodes, found)
    ensures forall id :: id in Image(x.nodes, order) <==>
      ReachedFromSome(IdGraph(View(x), false), Image(x.nodes, starts), id)
    ensures Image(x.nodes, order) == Joined(Images(x.nodes, found))
    ensures forall i | 0 <= i < |starts| ::
      IsSegment(IdGraph(View(x), false), Image(x.nodes, starts), i, Images(x.nodes, found)[i])
  {
    var g, h := IndexGraph(x, false), IdGraph(View(x), false);
    GraphsAgree(x, false);
    AllInside(g, starts, order);
    ImageDistinct(g, h, x.nodes, x.indices, order);
    ReachableImage(g, h, x.nodes, x.indices, starts, order);
    forall i, k | 0 <= i < |found| && 0 <= k < |found[i]|
      ensures found[i][k] in x.nodes
    {
      InJoined(found, i, found[i][k]);
    }
    JoinedImages(x.nodes, found);
    forall i | 0 <= i < |starts|
      ensures IsSegment(h, Image(x.nodes, starts), i, Images(x.nodes, found)[i])
    {
      SegmentImage(g, h, x.nodes, x.indices, starts, i, found[i]);
    }
  }
}
