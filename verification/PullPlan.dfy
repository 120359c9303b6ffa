/** Descending through the dependencies of requested datasets and giving each a depth. */
module PullPlan {
  import opened Wrappers
  import opened Odf
  import opened Graphs
  import opened PullModel

  /******* How the map of visited items may change *******/

  function Noted(item: PullItem, request: PullRequest, explicit: bool): PullItem {
    if explicit then item.(originalRequest := Some(request)) else item
  }

  /** What visiting one target has changed: the target is there, with the request noted if it
      was explicit; other new items are implicit; all else is as before. */
  ghost predicate Collected(repo: Repository, v: Visited, w: Visited, t: Target, request: PullRequest, explicit: bool)
    requires RepoOk(repo)
  {
    && t.alias in w
    && (forall a | a in v && a != t.alias :: a in w && w[a] == v[a])
    && (t.alias in v ==> w[t.alias] == Noted(v[t.alias], request, explicit))
    && (t.alias !in v ==>
          && w[t.alias].alias == t.alias && w[t.alias].handle == t.handle
          && RemoteOf(repo, t, request) == Ok(w[t.alias].remoteRef)
          && w[t.alias].originalRequest == if explicit then Some(request) else None)
    && (forall a | a in w && a !in v && a != t.alias ::
      Registered(repo, w[a]) && w[a].alias == a && w[a].originalRequest.None?)
  }

  function DependencyRequest(id: DatasetId): PullRequest {
    PullRequest(Some(ById(id)), None)
  }

  lemma ExtendsTransitive(repo: Repository, u: Visited, v: Visited, w: Visited)
    requires RepoOk(repo) && Extends(repo, u, v) && Extends(repo, v, w)
    ensures Extends(repo, u, w)
  {
  }

  lemma MaxDepthKept(repo: Repository, v: Visited, w: Visited, deps: seq<DatasetId>, d: int)
    requires MaxDepth(repo, v, deps, d)
    requires forall a | a in v :: a in w && w[a].depth == v[a].depth
    ensures MaxDepth(repo, w, deps, d)
  {
    if deps != [] {
      var i :| 0 <= i < |deps| && Has(repo, v, deps[i]) && DepthOf(repo, v, deps[i]) == d;
      assert Has(repo, w, deps[i]) && DepthOf(repo, w, deps[i]) == d;
    }
  }

  /** Items keep what holds of them when the map grows. */
  lemma ItemKept(repo: Repository, v: Visited, w: Visited, item: PullItem)
    requires RepoOk(repo) && ItemOk(repo, v, item)
    requires forall a | a in v :: a in w && w[a].depth == v[a].depth
    ensures ItemOk(repo, w, item)
  {
    if item.remoteRef.None? {
      MaxDepthKept(repo, v, w, repo.dependencies[item.handle.value], item.depth - 1);
    }
  }

  lemma InsertConsistent(repo: Repository, v: Visited, item: PullItem)
    requires RepoOk(repo) && Consistent(repo, v) && item.alias !in v && item.depth >= 0 && ItemOk(repo, v, item)
    ensures Consistent(repo, v[item.alias := item])
  {
    var w := v[item.alias := item];
    forall a | a in w
      ensures ItemAt(repo, w, a)
    {
      if a != item.alias {
        assert ItemAt(repo, v, a);
      }
      ItemKept(repo, v, w, w[a]);
    }
  }

  lemma NoteConsistent(repo: Repository, v: Visited, alias: Alias, request: PullRequest)
    requires RepoOk(repo) && Consistent(repo, v) && alias in v
    ensures Consistent(repo, v[alias := Noted(v[alias], request, true)])
  {
    var w := v[alias := Noted(v[alias], request, true)];
    forall a | a in w
      ensures ItemAt(repo, w, a)
    {
      assert ItemAt(repo, v, a);
      ItemKept(repo, v, w, v[a]);
    }
  }

  /** One more dependency is taken into account. */
  lemma MaxDepthStep(
      repo: Repository, v: Visited, w: Visited, deps: seq<DatasetId>, i: nat, d: int, e: int)
    requires RepoOk(repo) && i < |deps| && MaxDepth(repo, v, deps[..i], d) && Extends(repo, v, w)
    requires Has(repo, w, deps[i]) && DepthOf(repo, w, deps[i]) == e >= 0
    ensures MaxDepth(repo, w, deps[..i + 1], if e > d then e else d)
  {
    MaxDepthKept(repo, v, w, deps[..i], d);
    var next := deps[..i + 1];
    assert next[i] == deps[i] && next[..i] == deps[..i];
    if e > d {
      assert Has(repo, w, next[i]) && DepthOf(repo, w, next[i]) == e;
    } else {
      var j :| 0 <= j < i && Has(repo, w, deps[..i][j]) && DepthOf(repo, w, deps[..i][j]) == d;
      assert next[j] == deps[..i][j];
    }
    forall j | 0 <= j < |next|
      ensures Has(repo, w, next[j]) && DepthOf(repo, w, next[j]) <= if e > d then e else d
    {
      if j < i {
        assert Has(repo, w, deps[..i][j]) && DepthOf(repo, w, deps[..i][j]) <= d;
      }
    }
  }

  /******* The descent *******/

  /** A bound on the length of the descent. */
  ghost function Rank(repo: Repository, handle: Option<DatasetId>): nat
    requires RepoOk(repo)
  {
    if handle.Some? then |ReachSet(LocalGraph(repo), handle.value)| else 0
  }

  lemma RankDecreases(repo: Repository, id: DatasetId, dep: DatasetId)
    requires RepoOk(repo) && Acyclic(LocalGraph(repo)) && Edge(LocalGraph(repo), id, dep)
    ensures Rank(repo, FindLocal(repo, DependencyRequest(dep))) < Rank(repo, Some(id))
  {
    ReachShrinks(LocalGraph(repo), id, dep);
  }

  lemma BadThrough(
      repo: Repository, names: set<Alias>, more: set<Alias>, id: DatasetId, dep: DatasetId)
    requires RepoOk(repo) && names <= more && Edge(CutGraph(repo, names), id, dep) && BadAhead(repo, more, dep)
    ensures BadAhead(repo, names, id)
  {
    var g := CutGraph(repo, names);
    var n :| Reaches(CutGraph(repo, more), dep, n) && Bad(repo, n) && (n in repo.aliases ==> repo.aliases[n] !in more);
    CutReaches(repo, more, names, dep, n);
    ReachesEdge(g, id, dep);
    ReachesTransitive(g, id, dep, n);
  }

  lemma BadItself(repo: Repository, names: set<Alias>, id: DatasetId)
    requires RepoOk(repo) && Bad(repo, id) && (id in repo.aliases ==> repo.aliases[id] !in names)
    ensures BadAhead(repo, names, id)
  {
    ReachesSelf(CutGraph(repo, names), id);
  }

  /** What a dependency leads to, its dependent leads to, and never back to the dependent. */
  lemma ReachedThrough(
      repo: Repository, id: DatasetId, dep: DatasetId, u: Visited, v: Visited, w: Visited)
    requires RepoOk(repo) && Acyclic(LocalGraph(repo)) && Edge(LocalGraph(repo), id, dep)
    requires NewReached(repo, id, u, v) && NewReached(repo, dep, v, w)
    requires u.Keys <= v.Keys && repo.aliases[id] !in v
    ensures NewReached(repo, id, u, w) && repo.aliases[id] !in w
  {
    var g := CutGraph(repo, u.Keys);
    ReachesEdge(g, id, dep);
    forall a | a in w && a !in u
      ensures a in repo.ids && Reaches(g, id, repo.ids[a])
    {
      if a !in v {
        CutReaches(repo, v.Keys, u.Keys, dep, repo.ids[a]);
        ReachesTransitive(g, id, dep, repo.ids[a]);
      }
    }
    if repo.aliases[id] in w {
      CutReaches(repo, v.Keys, u.Keys, dep, id);
    }
  }

  /** What comes of visiting the target t of a request: failure only because of a bad dataset
      that it leads to, and new items only among those that it leads to. */
  ghost predicate TargetOutcome(
    repo: Repository, t: Target, request: PullRequest, explicit: bool, v: Visited, r: Result<int, PullError>,
    w: Visited)
    requires RepoOk(repo)
  {
    && Consistent(repo, w)
    && (r.Ok? ==> Collected(repo, v, w, t, request, explicit) && w[t.alias].depth == r.value >= 0)
    && (r.Err? ==> Extends(repo, v, w) && request.remoteRef.None?)
    && (request.remoteRef.Some? ==> forall a | a in w && a !in v :: a == t.alias)
    && (request.remoteRef.None? ==>
          && t.handle.Some? && NewReached(repo, t.handle.value, v, w)
          && (r.Err? ==> BadAhead(repo, v.Keys, t.handle.value)))
  }

  ghost predicate Outcome(
    repo: Repository, request: PullRequest, explicit: bool, createIfNotExists: bool,
    v: Visited, r: Result<int, PullError>, w: Visited)
    requires RepoOk(repo) && WellFormed(request)
  {
    var target := Resolve(repo, request, createIfNotExists);
    if target.Err? then r.Err? && w == v && Consistent(repo, w)
    else TargetOutcome(repo, target.value, request, explicit, v, r, w)
  }

  lemma DependencyOutcome(
    repo: Repository, id: DatasetId, createIfNotExists: bool, v: Visited, r: Result<int, PullError>, w: Visited)
    requires RepoOk(repo) && Consistent(repo, v)
    requires Outcome(repo, DependencyRequest(id), false, createIfNotExists, v, r, w)
    ensures Consistent(repo, w) && Extends(repo, v, w) && NewReached(repo, id, v, w)
    ensures r.Ok? ==> Has(repo, w, id) && DepthOf(repo, w, id) == r.value >= 0
    ensures r.Err? ==> BadAhead(repo, v.Keys, id)
  {
    if id in repo.aliases {
      assert repo.aliases[id] !in v && r.Ok? ==> Registered(repo, w[repo.aliases[id]]);
    } else {
      BadItself(repo, v.Keys, id);
    }
  }

  /** Some dependencies of a dataset have been descended through, and nothing else. */
  ghost predicate Descended(repo: Repository, id: DatasetId, u: Visited, w: Visited)
    requires RepoOk(repo) && id in repo.aliases
  {
    Consistent(repo, w) && Extends(repo, u, w) && NewReached(repo, id, u, w) && repo.aliases[id] !in w
  }

  lemma DescendedStep(
    repo: Repository, id: DatasetId, dep: DatasetId, createIfNotExists: bool, u: Visited, v: Visited,
    r: Result<int, PullError>, w: Visited)
    requires RepoOk(repo) && Acyclic(LocalGraph(repo)) && Edge(LocalGraph(repo), id, dep)
    requires Descended(repo, id, u, v)
    requires Outcome(repo, DependencyRequest(dep), false, createIfNotExists, v, r, w)
    ensures Descended(repo, id, u, w) && Extends(repo, v, w)
    ensures r.Ok? ==> Has(repo, w, dep) && DepthOf(repo, w, dep) == r.value >= 0
    ensures r.Err? ==> BadAhead(repo, u.Keys, id)
  {
    DependencyOutcome(repo, dep, createIfNotExists, v, r, w);
    ReachedThrough(repo, id, dep, u, v, w);
    ExtendsTransitive(repo, u, v, w);
    if r.Err? {
      BadThrough(repo, u.Keys, v.Keys, id, dep);
    }
  }

  /** The first i dependencies have been descended through, and d is the greatest of their depths. */
  ghost predicate DescendedTo(repo: Repository, id: DatasetId, u: Visited, w: Visited, i: nat, d: int)
    requires RepoOk(repo) && id in repo.aliases && i <= |repo.dependencies[id]|
  {
    Descended(repo, id, u, w) && MaxDepth(repo, w, repo.dependencies[id][..i], d) && d >= -1
  }

  lemma DescendedFurther(
      repo: Repository, id: DatasetId, u: Visited, v: Visited, w: Visited, i: nat, d: int, e: int)
    requires RepoOk(repo) && id in repo.aliases && i < |repo.dependencies[id]|
    requires DescendedTo(repo, id, u, v, i, d) && Descended(repo, id, u, w) && Extends(repo, v, w)
    requires var dep := repo.dependencies[id][i]; Has(repo, w, dep) && DepthOf(repo, w, dep) == e >= 0
    ensures DescendedTo(repo, id, u, w, i + 1, if e > d then e else d)
  {
    MaxDepthStep(repo, v, w, repo.dependencies[id], i, d, e);
  }

  /** The i-th dependency; returns the greatest depth so far. */
  method CollectDependency(
      repo: Repository, id: DatasetId, i: nat, createIfNotExists: bool, maxDepth: int, ghost u: Visited,
      visited: Visited)
    returns (r: Result<int, PullError>, w: Visited)
    requires RepoOk(repo) && Acyclic(LocalGraph(repo)) && id in repo.aliases && i < |repo.dependencies[id]|
    requires Edge(LocalGraph(repo), id, repo.dependencies[id][i])
    requires DescendedTo(repo, id, u, visited, i, maxDepth)
    ensures r.Ok? ==> DescendedTo(repo, id, u, w, i + 1, r.value)
    ensures r.Err? ==> Descended(repo, id, u, w) && BadAhead(repo, u.Keys, id)
    decreases Rank(repo, FindLocal(repo, DependencyRequest(repo.dependencies[id][i]))), 3
  {
    var dep := repo.dependencies[id][i];
    r, w := Collect(repo, DependencyRequest(dep), false, createIfNotExists, visited);
    DescendedStep(repo, id, dep, createIfNotExists, u, visited, r, w);
    if r.Ok? {
      DescendedFurther(repo, id, u, visited, w, i, maxDepth, r.value);
      r := Ok(if r.value > maxDepth then r.value else maxDepth);
    }
  }

  method CollectDependencies(repo: Repository, id: DatasetId, createIfNotExists: bool, visited: Visited)
    returns (r: Result<int, PullError>, w: Visited)
    requires RepoOk(repo) && Acyclic(LocalGraph(repo)) && Consistent(repo, visited)
    requires id in repo.aliases && repo.pullAliases[id] == [] && repo.aliases[id] !in visited
    ensures Descended(repo, id, visited, w)
    ensures r.Ok? ==> MaxDepth(repo, w, repo.dependencies[id], r.value) && r.value >= -1
    ensures r.Err? ==> BadAhead(repo, visited.Keys, id)
    decreases Rank(repo, Some(id)), 0
  {
    w := visited;
    var maxDepth := -1;
    var deps := repo.dependencies[id];
    var i := 0;
    while i < |deps|
      invariant 0 <= i <= |deps|
      invariant DescendedTo(repo, id, visited, w, i, maxDepth)
    {
      assert Edge(LocalGraph(repo), id, deps[i]);
      RankDecreases(repo, id, deps[i]);
      r, w := CollectDependency(repo, id, i, createIfNotExists, maxDepth, visited, w);
      if r.Err? {
        return;
      }
      maxDepth := r.value;
      i := i + 1;
    }
    assert deps[..i] == deps;
    r := Ok(maxDepth);
  }

  lemma InsertCollected(
    repo: Repository, t: Target, request: PullRequest, explicit: bool, v: Visited, w: Visited, item: PullItem)
    requires RepoOk(repo) && Extends(repo, v, w) && t.alias !in w
    requires item.alias == t.alias && item.handle == t.handle && RemoteOf(repo, t, request) == Ok(item.remoteRef)
    requires item.originalRequest == if explicit then Some(request) else None
    ensures Collected(repo, v, w[t.alias := item], t, request, explicit)
  {
  }

  lemma InsertReached(repo: Repository, t: Target, v: Visited, w: Visited, item: PullItem)
    requires RepoOk(repo) && t.handle.Some? && t.handle.value in repo.aliases && repo.aliases[t.handle.value] == t.alias
    requires NewReached(repo, t.handle.value, v, w)
    ensures NewReached(repo, t.handle.value, v, w[t.alias := item])
  {
    ReachesSelf(CutGraph(repo, v.Keys), t.handle.value);
  }

  /** Putting the item of a target in place, after everything that it leads to. */
  lemma ItemInserted(
    repo: Repository, t: Target, request: PullRequest, explicit: bool, v: Visited, w: Visited, item: PullItem)
    requires RepoOk(repo) && Consistent(repo, w) && Extends(repo, v, w) && t.alias !in w
    requires t.handle.Some? ==> t.handle.value in repo.aliases && repo.aliases[t.handle.value] == t.alias
    requires item.alias == t.alias && item.handle == t.handle && RemoteOf(repo, t, request) == Ok(item.remoteRef)
    requires item.originalRequest == if explicit then Some(request) else None
    requires item.depth >= 0 && ItemOk(repo, w, item)
    requires request.remoteRef.Some? ==> w == v
    requires request.remoteRef.None? ==> t.handle.Some? && NewReached(repo, t.handle.value, v, w)
    ensures TargetOutcome(repo, t, request, explicit, v, Ok(item.depth), w[t.alias := item])
  {
    InsertConsistent(repo, w, item);
    InsertCollected(repo, t, request, explicit, v, w, item);
    if request.remoteRef.None? {
      InsertReached(repo, t, v, w, item);
    }
  }

  /** A target that has not been visited yet. */
  method CollectNew(
      repo: Repository, t: Target, request: PullRequest, explicit: bool, createIfNotExists: bool, visited: Visited)
    returns (r: Result<int, PullError>, w: Visited)
    requires RepoOk(repo) && Acyclic(LocalGraph(repo)) && Consistent(repo, visited) && t.alias !in visited
    requires t.handle.Some? ==> t.handle.value in repo.aliases && repo.aliases[t.handle.value] == t.alias
    requires t.handle.None? ==> request.remoteRef.Some?
    ensures TargetOutcome(repo, t, request, explicit, visited, r, w)
    decreases Rank(repo, t.handle), 1
  {
    w := visited;
    var remote := RemoteOf(repo, t, request);
    if remote.Err? {
      BadItself(repo, visited.Keys, t.handle.value);
      return Err(remote.error), w;
    }
    var item: PullItem;
    if remote.value.Some? {
      item := PullItem(0, t.alias, t.handle, remote.value, None);
    } else {
      r, w := CollectDependencies(repo, t.handle.value, createIfNotExists, visited);
      if r.Err? {
        return;
      }
      item := PullItem(r.value + 1, t.alias, t.handle, None, None);
    }
    if explicit {
      item := item.(originalRequest := Some(request));
    }
    ItemInserted(repo, t, request, explicit, visited, w, item);
    w := w[t.alias := item];
    r := Ok(item.depth);
  }

  /** Visits the target of a request, after everything that it depends on. */
  method Collect(repo: Repository, request: PullRequest, explicit: bool, createIfNotExists: bool, visited: Visited)
    returns (r: Result<int, PullError>, w: Visited)
    requires RepoOk(repo) && Acyclic(LocalGraph(repo)) && WellFormed(request) && Consistent(repo, visited)
    ensures Outcome(repo, request, explicit, createIfNotExists, visited, r, w)
    decreases Rank(repo, FindLocal(repo, request)), 2
  {
    w := visited;
    var resolved := Resolve(repo, request, createIfNotExists);
    if resolved.Err? {
      return Err(resolved.error), w;
    }
    var t := resolved.value;
    if t.alias in visited {
      assert ItemAt(repo, visited, t.alias);
      if explicit {
        NoteConsistent(repo, visited, t.alias, request);
        w := visited[t.alias := visited[t.alias].(originalRequest := Some(request))];
      }
      r := Ok(visited[t.alias].depth);
    } else {
      r, w := CollectNew(repo, t, request, explicit, createIfNotExists, visited);
    }
  }
}
