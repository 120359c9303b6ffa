/**
 The dependency graph in its indexed form (nodes are numbers, a table leads from
 dataset ids to numbers) and the plain graph of ids that it stands for.
 */
module DependencyModel {
  import opened Wrappers
  import opened Odf
  import opened Graphs
  import opened Renaming

  /** Ids and pairs (upstream, downstream). */
  datatype Plain = Plain(ids: set<DatasetId>, deps: set<(DatasetId, DatasetId)>)

  datatype Indexed = Indexed(nodes: map<nat, DatasetId>, edges: seq<(nat, nat)>, indices: map<DatasetId, nat>)

  /** The table is a bijection with the live nodes, edges join live nodes, none are parallel. */
  ghost predicate Live(x: Indexed) {
    && (forall id | id in x.indices :: x.indices[id] in x.nodes && x.nodes[x.indices[id]] == id)
    && (forall n | n in x.nodes :: x.nodes[n] in x.indices && x.indices[x.nodes[n]] == n)
    && (forall e | e in x.edges :: e.0 in x.nodes && e.1 in x.nodes)
    && Distinct(x.edges)
  }

  /** The dependency (up, down) is recorded. */
  predicate Depends(x: Indexed, up: DatasetId, down: DatasetId) {
    up in x.indices && down in x.indices && (x.indices[up], x.indices[down]) in x.edges
  }

  ghost function View(x: Indexed): Plain {
    Plain(
      x.indices.Keys,
      set up, down | up in x.indices.Keys && down in x.indices.Keys && Depends(x, up, down) :: (up, down))
  }

  /******* The plain operations *******/

  function WithDependency(p: Plain, up: DatasetId, down: DatasetId): Plain {
    Plain(p.ids + {up, down}, p.deps + {(up, down)})
  }

  function WithoutDependency(p: Plain, up: DatasetId, down: DatasetId): Plain {
    Plain(p.ids + {up, down}, p.deps - {(up, down)})
  }

  function WithoutDataset(p: Plain, id: DatasetId): Plain {
    Plain(p.ids - {id}, set d | d in p.deps && d.0 != id && d.1 != id)
  }

  /** The dataset depends on the given ones and on nothing else; no other dataset is affected. */
  function WithUpstream(p: Plain, id: DatasetId, upstream: set<DatasetId>): Plain {
    Plain(p.ids + upstream, (set d | d in p.deps && d.1 != id) + (set up | up in upstream :: (up, id)))
  }

  /** The upstream of one dataset. */
  function UpstreamOf(p: Plain, id: DatasetId): set<DatasetId> {
    set d | d in p.deps && d.1 == id :: d.0
  }

  datatype Message =
    | Created(id: DatasetId)
    | Deleted(id: DatasetId)
    | DependenciesUpdated(id: DatasetId, newUpstream: seq<DatasetId>)

  datatype GraphError = DatasetNotFound(id: DatasetId)

  /** What a message means for the plain graph; messages about unknown datasets are refused. */
  function Consumed(p: Plain, m: Message): Result<Plain, GraphError> {
    match m
    case Created(id) => Ok(p.(ids := p.ids + {id}))
    case Deleted(id) => if id in p.ids then Ok(WithoutDataset(p, id)) else Err(DatasetNotFound(id))
    case DependenciesUpdated(id, newUpstream) =>
      if id in p.ids then Ok(WithUpstream(p, id, Elements(newUpstream))) else Err(DatasetNotFound(id))
  }

  /** What a message changes: a created dataset is known afterwards, a deleted one is not, nor is any
      dependency on it or of it, an updated one has the new upstream; all else is as before. */
  ghost predicate Changed(p: Plain, m: Message, q: Plain) {
    match m
    case Created(id) =>
      (forall x :: x in q.ids <==> x in p.ids || x == id) && forall d :: d in q.deps <==> d in p.deps
    case Deleted(id) =>
      && (forall x :: x in q.ids <==> x in p.ids && x != id)
      && (forall d :: d in q.deps <==> d in p.deps && d.0 != id && d.1 != id)
    case DependenciesUpdated(id, newUpstream) =>
      && (forall x :: x in q.ids <==> x in p.ids || x in newUpstream)
      && (forall d :: d in q.deps <==> if d.1 == id then d.0 in newUpstream else d in p.deps)
  }

  /** A message is refused exactly if it is about an unknown dataset and does not create it. */
  lemma ConsumedChanges(p: Plain, m: Message)
    ensures Consumed(p, m).Err? <==> !m.Created? && m.id !in p.ids
    ensures Consumed(p, m).Ok? ==> Changed(p, m, Consumed(p, m).value)
  {
  }

  /** The graph after a history of messages, of which refused ones change nothing. */
  function History(p: Plain, ms: seq<Message>): Plain {
    if ms == [] then p
    else
      var before := History(p, ms[..|ms| - 1]);
      var r := Consumed(before, ms[|ms| - 1]);
      if r.Ok? then r.value else before
  }

  datatype Dependencies = Dependencies(downstream: DatasetId, upstream: seq<DatasetId>)

  /** Everything that a listing of all datasets mentions. */
  function Listed(ds: seq<Dependencies>): Plain {
    Plain(
      (set d | d in ds :: d.downstream) + (set d, up | d in ds && up in d.upstream :: up),
      set d, up | d in ds && up in d.upstream :: (up, d.downstream))
  }

  type Listing = seq<Result<Dependencies, string>>

  /** What a listing gives before its first failure. */
  function UntilFailure(listing: Listing): (r: seq<Dependencies>)
    ensures |r| <= |listing|
    ensures forall i | 0 <= i < |r| :: listing[i] == Ok(r[i])
    ensures |r| < |listing| ==> listing[|r|].Err?
  {
    if listing == [] || listing[0].Err? then [] else [listing[0].value] + UntilFailure(listing[1..])
  }

  function Union(a: Plain, b: Plain): Plain {
    Plain(a.ids + b.ids, a.deps + b.deps)
  }

  /******* Changing the indexed form *******/

  lemma NodeAdded(x: Indexed, n: nat, id: DatasetId)
    requires Live(x) && n !in x.nodes && id !in x.indices
    ensures var y := x.(nodes := x.nodes[n := id], indices := x.indices[id := n]);
      Live(y) && View(y) == View(x).(ids := View(x).ids + {id})
  {
    var y := x.(nodes := x.nodes[n := id], indices := x.indices[id := n]);
    forall up, down
      ensures Depends(y, up, down) == Depends(x, up, down)
    {
    }
    assert View(y).deps == View(x).deps;
    assert View(y).ids == View(x).ids + {id};
  }

  lemma EdgeAdded(x: Indexed, up: DatasetId, down: DatasetId)
    requires Live(x) && up in x.indices && down in x.indices && !Depends(x, up, down)
    ensures var y := x.(edges := x.edges + [(x.indices[up], x.indices[down])]);
      Live(y) && View(y) == WithDependency(View(x), up, down)
  {
    var e := (x.indices[up], x.indices[down]);
    var y := x.(edges := x.edges + [e]);
    DistinctSnoc(x.edges, e);
    forall a, b
      ensures Depends(y, a, b) <==> Depends(x, a, b) || (a == up && b == down)
    {
    }
    assert View(y).deps == View(x).deps + {(up, down)};
    assert View(y).ids == View(x).ids + {up, down};
  }

  lemma Removed<T>(s: seq<T>, k: nat)
    requires k < |s| && Distinct(s)
    ensures Distinct(s[..k] + s[k + 1..])
    ensures forall x :: x in s[..k] + s[k + 1..] <==> x in s && x != s[k]
  {
    var r := s[..k] + s[k + 1..];
    assert forall i | 0 <= i < |r| :: r[i] == s[if i < k then i else i + 1];
    forall x | x in s && x != s[k]
      ensures x in r
    {
      var i :| 0 <= i < |s| && s[i] == x;
      assert r[if i < k then i else i - 1] == x;
    }
  }

  lemma EdgeRemoved(x: Indexed, up: DatasetId, down: DatasetId, k: nat)
    requires Live(x) && up in x.indices && down in x.indices
    requires k < |x.edges| && x.edges[k] == (x.indices[up], x.indices[down])
    ensures var y := x.(edges := x.edges[..k] + x.edges[k + 1..]);
      Live(y) && View(y) == WithoutDependency(View(x), up, down)
  {
    var y := x.(edges := x.edges[..k] + x.edges[k + 1..]);
    Removed(x.edges, k);
    forall a, b
      ensures Depends(y, a, b) <==> Depends(x, a, b) && !(a == up && b == down)
    {
    }
    assert View(y).deps == View(x).deps - {(up, down)};
    assert View(y).ids == View(x).ids + {up, down};
  }

  /** Edges that do not touch the node. */
  function Detached(edges: seq<(nat, nat)>, n: nat): seq<(nat, nat)> {
    if edges == [] then []
    else
      var rest, e := Detached(edges[..|edges| - 1], n), edges[|edges| - 1];
      if e.0 == n || e.1 == n then rest else rest + [e]
  }

  lemma {:induction false} DetachedEdges(edges: seq<(nat, nat)>, n: nat)
    ensures forall e :: e in Detached(edges, n) <==> e in edges && e.0 != n && e.1 != n
    ensures Distinct(edges) ==> Distinct(Detached(edges, n))
  {
    if edges == [] {
    } else {
      var k := |edges| - 1;
      DetachedEdges(edges[..k], n);
      assert edges == edges[..k] + [edges[k]];
    }
  }

  lemma NodeRemoved(x: Indexed, id: DatasetId)
    requires Live(x) && id in x.indices
    ensures var n := x.indices[id];
      var y := Indexed(x.nodes - {n}, Detached(x.edges, n), x.indices - {id});
      Live(y) && View(y) == WithoutDataset(View(x), id)
  {
    var n := x.indices[id];
    var y := Indexed(x.nodes - {n}, Detached(x.edges, n), x.indices - {id});
    DetachedEdges(x.edges, n);
    forall a, b
      ensures Depends(y, a, b) <==> Depends(x, a, b) && a != id && b != id
    {
    }
    assert View(y).deps == WithoutDataset(View(x), id).deps;
    assert View(y).ids == View(x).ids - {id};
  }

  /******* Neighbours, newest edge first *******/

  function Neighbours(edges: seq<(nat, nat)>, n: nat, outgoing: bool): seq<nat> {
    if edges == [] then []
    else
      var k := |edges| - 1;
      var rest := Neighbours(edges[..k], n, outgoing);
      if outgoing then if edges[k].0 == n then [edges[k].1] + rest else rest
      else if edges[k].1 == n then [edges[k].0] + rest else rest
  }

  lemma {:induction false} NeighboursAre(edges: seq<(nat, nat)>, n: nat, outgoing: bool, m: nat)
    ensures m in Neighbours(edges, n, outgoing) <==> (if outgoing then (n, m) else (m, n)) in edges
  {
    if edges == [] {
    } else {
      var k := |edges| - 1;
      NeighboursAre(edges[..k], n, outgoing, m);
      assert edges == edges[..k] + [edges[k]];
    }
  }

  function IndexGraph(x: Indexed, outgoing: bool): (g: Graph<nat>)
    ensures g.Keys == x.nodes.Keys
  {
    map n | n in x.nodes :: Neighbours(x.edges, n, outgoing)
  }

  lemma IndexGraphEdges(x: Indexed, outgoing: bool)
    requires Live(x)
    ensures Closed(IndexGraph(x, outgoing))
    ensures forall n: nat, m: nat :: Edge(IndexGraph(x, outgoing), n, m) <==>
      (if outgoing then (n, m) else (m, n)) in x.edges
  {
    forall n: nat, m: nat
      ensures m in Neighbours(x.edges, n, outgoing) <==> (if outgoing then (n, m) else (m, n)) in x.edges
    {
      NeighboursAre(x.edges, n, outgoing, m);
    }
  }

  /******* The graph of ids *******/

  ghost function AnyOrder<T(!new)>(s: set<T>): (r: seq<T>)
    ensures forall y :: y in r <==> y in s
  {
    if s == {} then []
    else
      var y :| y in s;
      [y] + AnyOrder(s - {y})
  }

  /** The plain graph, followed downstream or upstream. */
  ghost function IdGraph(p: Plain, outgoing: bool): (g: Graph<DatasetId>)
    ensures g.Keys == p.ids
    ensures forall id | id in p.ids :: forall other ::
      other in g[id] <==> (if outgoing then (id, other) else (other, id)) in p.deps
  {
    map id | id in p.ids :: AnyOrder(if outgoing then set d | d in p.deps && d.0 == id :: d.1 else UpstreamOf(p, id))
  }

  /** The two graphs are the same up to the numbering. */
  lemma GraphsAgree(x: Indexed, outgoing: bool)
    requires Live(x)
    ensures Renamed(IndexGraph(x, outgoing), IdGraph(View(x), outgoing), x.nodes, x.indices)
  {
    var g, h := IndexGraph(x, outgoing), IdGraph(View(x), outgoing);
    IndexGraphEdges(x, outgoing);
    forall n: nat, m: nat | Edge(g, n, m)
      ensures m in x.nodes && Edge(h, x.nodes[n], x.nodes[m])
    {
      var e := if outgoing then (n, m) else (m, n);
      assert e in x.edges;
      assert Depends(x, x.nodes[e.0], x.nodes[e.1]);
    }
    forall id, other | Edge(h, id, other)
      ensures other in x.indices && Edge(g, x.indices[id], x.indices[other])
    {
      assert if outgoing then Depends(x, id, other) else Depends(x, other, id);
    }
  }
}
