/** Requests to pull datasets, and the items that a pull plan consists of. */
module PullModel {
  import opened Wrappers
  import opened Odf
  import opened Graphs

  type Alias = string
  type RemoteRef = string

  datatype DatasetRef = ById(id: DatasetId) | ByAlias(alias: Alias)

  datatype PullRequest = PullRequest(localRef: Option<DatasetRef>, remoteRef: Option<RemoteRef>)

  /** The local datasets: names, dependencies and registered pull sources; the dataset that a
      remote reference leads back to, and the name that a new dataset would get from it. */
  datatype Repository = Repository(
    aliases: map<DatasetId, Alias>,
    ids: map<Alias, DatasetId>,
    dependencies: map<DatasetId, seq<DatasetId>>,
    pullAliases: map<DatasetId, seq<RemoteRef>>,
    pulledFrom: map<RemoteRef, DatasetId>,
    inferredNames: map<RemoteRef, Alias>)

  datatype PullError = NotFound | AmbiguousSource | InvalidOperation

  datatype PullItem = PullItem(
    depth: int,
    alias: Alias,
    handle: Option<DatasetId>,
    remoteRef: Option<RemoteRef>,
    originalRequest: Option<PullRequest>)

  type Visited = map<Alias, PullItem>

  ghost predicate RepoOk(repo: Repository) {
    && (forall id | id in repo.aliases :: repo.aliases[id] in repo.ids && repo.ids[repo.aliases[id]] == id)
    && (forall a | a in repo.ids :: repo.ids[a] in repo.aliases && repo.aliases[repo.ids[a]] == a)
    && repo.dependencies.Keys == repo.aliases.Keys && repo.pullAliases.Keys == repo.aliases.Keys
    && forall r | r in repo.pulledFrom :: repo.pulledFrom[r] in repo.aliases
  }

  /** A request names a local dataset or a remote one. */
  predicate WellFormed(request: PullRequest) {
    request.localRef.Some? || request.remoteRef.Some?
  }

  /******* Resolving a request *******/

  /** The name to pull into, and the dataset of that name if the request found it. */
  datatype Target = Target(alias: Alias, handle: Option<DatasetId>)

  function TryResolve(repo: Repository, ref: DatasetRef): Option<DatasetId> {
    match ref
    case ById(id) => if id in repo.aliases then Some(id) else None
    case ByAlias(alias) => if alias in repo.ids then Some(repo.ids[alias]) else None
  }

  function FindLocal(repo: Repository, request: PullRequest): Option<DatasetId> {
    if request.localRef.Some? then TryResolve(repo, request.localRef.value)
    else if request.remoteRef.Some? && request.remoteRef.value in repo.pulledFrom then
      Some(repo.pulledFrom[request.remoteRef.value])
    else None
  }

  function NewName(repo: Repository, request: PullRequest): Result<Alias, PullError>
    requires WellFormed(request)
  {
    if request.localRef.Some? then
      if request.localRef.value.ByAlias? then Ok(request.localRef.value.alias) else Err(NotFound)
    else if request.remoteRef.value in repo.inferredNames then Ok(repo.inferredNames[request.remoteRef.value])
    else Err(InvalidOperation)
  }

  function Resolve(repo: Repository, request: PullRequest, createIfNotExists: bool): (r: Result<Target, PullError>)
    requires WellFormed(request)
    ensures RepoOk(repo) && r.Ok? && r.value.handle.Some? ==>
      r.value.handle.value in repo.aliases && repo.aliases[r.value.handle.value] == r.value.alias
    ensures r.Ok? && r.value.handle.None? ==> request.remoteRef.Some?
  {
    var handle := FindLocal(repo, request);
    if handle.Some? && handle.value in repo.aliases then Ok(Target(repo.aliases[handle.value], handle))
    else if request.localRef.Some? && request.remoteRef.None? then Err(NotFound)
    else
      var name := NewName(repo, request);
      if name.Err? then Err(name.error)
      else if !createIfNotExists then Err(InvalidOperation)
      else Ok(Target(name.value, None))
  }

  /** A request finds a dataset by its id, by its name, or by the remote that it was pulled from; one
      that finds none can only be for a new dataset, with a remote to pull it from and a name. */
  lemma ResolveCases(repo: Repository, request: PullRequest, createIfNotExists: bool)
    requires RepoOk(repo) && WellFormed(request)
    ensures var r, ref, remote := Resolve(repo, request, createIfNotExists), request.localRef, request.remoteRef;
      && (ref.Some? && ref.value.ById? && ref.value.id in repo.aliases ==>
            r == Ok(Target(repo.aliases[ref.value.id], Some(ref.value.id))))
      && (ref.Some? && ref.value.ById? && ref.value.id !in repo.aliases ==> r == Err(NotFound))
      && (ref.Some? && ref.value.ByAlias? && ref.value.alias in repo.ids ==>
            r == Ok(Target(ref.value.alias, Some(repo.ids[ref.value.alias]))))
      && (ref.Some? && ref.value.ByAlias? && ref.value.alias !in repo.ids ==>
            if remote.None? then r == Err(NotFound)
            else r == if createIfNotExists then Ok(Target(ref.value.alias, None)) else Err(InvalidOperation))
      && (ref.None? && remote.value in repo.pulledFrom ==>
            var id := repo.pulledFrom[remote.value]; r == Ok(Target(repo.aliases[id], Some(id))))
      && (ref.None? && remote.value !in repo.pulledFrom ==>
            if createIfNotExists && remote.value in repo.inferredNames
            then r == Ok(Target(repo.inferredNames[remote.value], None)) else r == Err(InvalidOperation))
  {
  }

  /** The registered source of a dataset. */
  function PullAlias(repo: Repository, id: DatasetId): Result<Option<RemoteRef>, PullError>
    requires id in repo.pullAliases
  {
    var sources := repo.pullAliases[id];
    if |sources| == 0 then Ok(None) else if |sources| == 1 then Ok(Some(sources[0])) else Err(AmbiguousSource)
  }

  function RemoteOf(repo: Repository, target: Target, request: PullRequest): Result<Option<RemoteRef>, PullError> {
    if request.remoteRef.Some? then Ok(request.remoteRef)
    else if target.handle.Some? && target.handle.value in repo.pullAliases then PullAlias(repo, target.handle.value)
    else Ok(None)
  }

  /******* Dependencies *******/

  /** What has to be pulled before a dataset: datasets with a registered source need nothing. */
  function LocalGraph(repo: Repository): Graph<DatasetId>
    requires repo.dependencies.Keys == repo.aliases.Keys && repo.pullAliases.Keys == repo.aliases.Keys
  {
    map id | id in repo.aliases :: if repo.pullAliases[id] == [] then repo.dependencies[id] else []
  }

  /** A dataset that no plan can include: it is missing, or has several sources. */
  predicate Bad(repo: Repository, id: DatasetId)
    requires repo.pullAliases.Keys == repo.aliases.Keys
  {
    id in repo.aliases ==> |repo.pullAliases[id]| > 1
  }

  ghost predicate LeadsToBad(repo: Repository, id: DatasetId)
    requires RepoOk(repo)
  {
    exists n :: Reaches(LocalGraph(repo), id, n) && Bad(repo, n)
  }

  /******* Plans under construction *******/

  /** The dataset is among those visited. */
  predicate Has(repo: Repository, v: Visited, id: DatasetId) {
    id in repo.aliases && repo.aliases[id] in v
  }

  function DepthOf(repo: Repository, v: Visited, id: DatasetId): int
    requires Has(repo, v, id)
  {
    v[repo.aliases[id]].depth
  }

  /** All dependencies are visited and none is deeper than d, which one of them has, if any. */
  ghost predicate MaxDepth(repo: Repository, v: Visited, deps: seq<DatasetId>, d: int) {
    && (forall i | 0 <= i < |deps| :: Has(repo, v, deps[i]) && DepthOf(repo, v, deps[i]) <= d)
    && (deps == [] ==> d == -1)
    && (deps != [] ==> exists i | 0 <= i < |deps| :: Has(repo, v, deps[i]) && DepthOf(repo, v, deps[i]) == d)
  }

  /** An item synced from a remote has depth 0; any other is one deeper than its dependencies. */
  ghost predicate ItemOk(repo: Repository, v: Visited, item: PullItem)
    requires RepoOk(repo)
  {
    if item.remoteRef.Some? then item.depth == 0
    else
      && item.handle.Some? && item.handle.value in repo.aliases && repo.aliases[item.handle.value] == item.alias
      && MaxDepth(repo, v, repo.dependencies[item.handle.value], item.depth - 1)
  }

  ghost predicate ItemAt(repo: Repository, v: Visited, a: Alias)
    requires RepoOk(repo) && a in v
  {
    v[a].alias == a && v[a].depth >= 0 && ItemOk(repo, v, v[a])
  }

  ghost predicate Consistent(repo: Repository, v: Visited)
    requires RepoOk(repo)
  {
    forall a {:trigger ItemAt(repo, v, a)} | a in v :: ItemAt(repo, v, a)
  }

  /** The item is as the repository alone determines it. */
  predicate Registered(repo: Repository, item: PullItem)
    requires repo.pullAliases.Keys == repo.aliases.Keys
  {
    && item.alias in repo.ids && item.handle == Some(repo.ids[item.alias])
    && repo.ids[item.alias] in repo.aliases && PullAlias(repo, repo.ids[item.alias]) == Ok(item.remoteRef)
  }

  /** Nothing changed but for new, implicit items. */
  ghost predicate Extends(repo: Repository, v: Visited, w: Visited)
    requires RepoOk(repo)
  {
    && (forall a | a in v :: a in w && w[a] == v[a])
    && (forall a | a in w && a !in v :: Registered(repo, w[a]) && w[a].alias == a && w[a].originalRequest.None?)
  }

  /** What is descended through when some names have been visited before. */
  function CutGraph(repo: Repository, names: set<Alias>): Graph<DatasetId>
    requires RepoOk(repo)
  {
    map id | id in repo.aliases :: if repo.aliases[id] in names then [] else LocalGraph(repo)[id]
  }

  lemma CutReaches(repo: Repository, more: set<Alias>, names: set<Alias>, x: DatasetId, n: DatasetId)
    requires RepoOk(repo) && names <= more && Reaches(CutGraph(repo, more), x, n)
    ensures Reaches(CutGraph(repo, names), x, n) && Reaches(LocalGraph(repo), x, n)
  {
    ReachesSubgraph(CutGraph(repo, more), CutGraph(repo, names), x, n);
    ReachesSubgraph(CutGraph(repo, more), LocalGraph(repo), x, n);
  }

  /** A descent from the dataset meets a bad one. */
  ghost predicate BadAhead(repo: Repository, names: set<Alias>, id: DatasetId)
    requires RepoOk(repo)
  {
    exists n ::
      Reaches(CutGraph(repo, names), id, n) && Bad(repo, n) && (n in repo.aliases ==> repo.aliases[n] !in names)
  }

  lemma BadAheadLeads(repo: Repository, names: set<Alias>, id: DatasetId)
    requires RepoOk(repo) && BadAhead(repo, names, id)
    ensures LeadsToBad(repo, id)
  {
    var n :| Reaches(CutGraph(repo, names), id, n) && Bad(repo, n) &&
      (n in repo.aliases ==> repo.aliases[n] !in names);
    CutReaches(repo, names, names, id, n);
  }

  /** The new items are reached from x without passing through those that were there. */
  ghost predicate NewReached(repo: Repository, x: DatasetId, v: Visited, w: Visited)
    requires RepoOk(repo)
  {
    forall a | a in w && a !in v :: a in repo.ids && Reaches(CutGraph(repo, v.Keys), x, repo.ids[a])
  }

  lemma NewReachedLocally(repo: Repository, x: DatasetId, v: Visited, w: Visited)
    requires RepoOk(repo) && NewReached(repo, x, v, w)
    ensures forall a | a in w && a !in v :: a in repo.ids && Reaches(LocalGraph(repo), x, repo.ids[a])
  {
    forall a | a in w && a !in v
      ensures a in repo.ids && Reaches(LocalGraph(repo), x, repo.ids[a])
    {
      CutReaches(repo, v.Keys, v.Keys, x, repo.ids[a]);
    }
  }
}
