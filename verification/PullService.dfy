/** Collecting a plan for several requests, and carrying it out batch by batch. */
module PullService {
  import opened Wrappers
  import opened Odf
  import opened Graphs
  import opened PullModel
  import opened PullPlan
  import opened PullOrder

  /******* Collecting *******/

  ghost predicate AllWellFormed(requests: seq<PullRequest>) {
    forall i | 0 <= i < |requests| :: WellFormed(requests[i])
  }

  ghost predicate NamesNoRemote(requests: seq<PullRequest>) {
    forall i | 0 <= i < |requests| :: requests[i].remoteRef.None?
  }

  /** The request leads to the name. */
  ghost predicate LeadsTo(repo: Repository, request: PullRequest, createIfNotExists: bool, a: Alias) {
    && WellFormed(request)
    && Resolve(repo, request, createIfNotExists).Ok?
    && Resolve(repo, request, createIfNotExists).value.alias == a
  }

  /** Requests are noted only on the items that they lead to. */
  ghost predicate NotedRightly(repo: Repository, requests: seq<PullRequest>, createIfNotExists: bool, v: Visited) {
    forall a | a in v && v[a].originalRequest.Some? ::
      v[a].originalRequest.value in requests && LeadsTo(repo, v[a].originalRequest.value, createIfNotExists, a)
  }

  /** The request leads to an item on which a request is noted. */
  ghost predicate Served(repo: Repository, request: PullRequest, createIfNotExists: bool, v: Visited) {
    exists a | a in v :: LeadsTo(repo, request, createIfNotExists, a) && v[a].originalRequest.Some?
  }

  ghost predicate AllServed(repo: Repository, requests: seq<PullRequest>, createIfNotExists: bool, v: Visited) {
    forall i {:trigger Served(repo, requests[i], createIfNotExists, v)} | 0 <= i < |requests| ::
      Served(repo, requests[i], createIfNotExists, v)
  }

  /** The dataset is found by one of the requests, or is needed by one that is. */
  ghost predicate Needed(repo: Repository, requests: seq<PullRequest>, id: DatasetId)
    requires RepoOk(repo)
  {
    exists i | 0 <= i < |requests| ::
      FindLocal(repo, requests[i]).Some? && Reaches(LocalGraph(repo), FindLocal(repo, requests[i]).value, id)
  }

  ghost predicate NeededName(repo: Repository, requests: seq<PullRequest>, a: Alias)
    requires RepoOk(repo)
  {
    a in repo.ids && Needed(repo, requests, repo.ids[a])
  }

  ghost predicate AllNeeded(repo: Repository, requests: seq<PullRequest>, v: Visited)
    requires RepoOk(repo)
  {
    forall a {:trigger NeededName(repo, requests, a)} | a in v :: NeededName(repo, requests, a)
  }

  /** The request cannot be resolved, or leads to a bad dataset. */
  ghost predicate Fails(repo: Repository, request: PullRequest)
    requires RepoOk(repo)
  {
    FindLocal(repo, request).None? || LeadsToBad(repo, FindLocal(repo, request).value)
  }

  ghost function Failing(repo: Repository, requests: seq<PullRequest>): seq<PullRequest>
    requires RepoOk(repo)
  {
    if requests == [] then []
    else
      var n := |requests| - 1;
      Failing(repo, requests[..n]) + if Fails(repo, requests[n]) then [requests[n]] else []
  }

  datatype RequestError = RequestError(request: PullRequest, error: PullError)

  function RequestsOf(errors: seq<RequestError>): (r: seq<PullRequest>)
    ensures |r| == |errors| && forall i | 0 <= i < |r| :: r[i] == errors[i].request
  {
    seq(|errors|, i requires 0 <= i < |errors| => errors[i].request)
  }

  /** Everything that holds of the map whatever the requests name. */
  ghost predicate Progress(
      repo: Repository, requests: seq<PullRequest>, createIfNotExists: bool, v: Visited, errors: seq<RequestError>)
    requires RepoOk(repo)
  {
    && Consistent(repo, v)
    && NotedRightly(repo, requests, createIfNotExists, v)
    && (errors == [] ==> AllServed(repo, requests, createIfNotExists, v))
    && |errors| <= |requests|
  }

  /** What holds in addition if no request names a remote. */
  ghost predicate LocalProgress(repo: Repository, requests: seq<PullRequest>, v: Visited, errors: seq<RequestError>)
    requires RepoOk(repo)
  {
    && AllRegistered(repo, v)
    && AllNeeded(repo, requests, v)
    && RequestsOf(errors) == Failing(repo, requests)
  }

  lemma ServedStays(
      repo: Repository, request: PullRequest, createIfNotExists: bool, v: Visited, w: Visited)
    requires Served(repo, request, createIfNotExists, v)
    requires forall a | a in v :: a in w && (v[a].originalRequest.Some? ==> w[a].originalRequest.Some?)
    ensures Served(repo, request, createIfNotExists, w)
  {
    var a :| a in v && LeadsTo(repo, request, createIfNotExists, a) && v[a].originalRequest.Some?;
    assert a in w;
  }

  lemma AllServedStep(
    repo: Repository, rs: seq<PullRequest>, request: PullRequest, createIfNotExists: bool, v: Visited, w: Visited)
    requires AllServed(repo, rs, createIfNotExists, v) && Served(repo, request, createIfNotExists, w)
    requires forall a | a in v :: a in w && (v[a].originalRequest.Some? ==> w[a].originalRequest.Some?)
    ensures AllServed(repo, rs + [request], createIfNotExists, w)
  {
    forall i | 0 <= i < |rs + [request]|
      ensures Served(repo, (rs + [request])[i], createIfNotExists, w)
    {
      if i < |rs| {
        ServedStays(repo, rs[i], createIfNotExists, v, w);
      }
    }
  }

  /** One more explicit request. */
  lemma ProgressStep(
    repo: Repository, rs: seq<PullRequest>, request: PullRequest, createIfNotExists: bool,
    v: Visited, r: Result<int, PullError>, w: Visited)
    requires RepoOk(repo) && WellFormed(request) && NotedRightly(repo, rs, createIfNotExists, v)
    requires Outcome(repo, request, true, createIfNotExists, v, r, w)
    ensures NotedRightly(repo, rs + [request], createIfNotExists, w)
    ensures r.Ok? && AllServed(repo, rs, createIfNotExists, v) ==> AllServed(repo, rs + [request], createIfNotExists, w)
  {
    var target := Resolve(repo, request, createIfNotExists);
    forall a | a in w && w[a].originalRequest.Some?
      ensures w[a].originalRequest.value in rs + [request] &&
        LeadsTo(repo, w[a].originalRequest.value, createIfNotExists, a)
    {
    }
    if r.Ok? {
      assert Collected(repo, v, w, target.value, request, true);
      assert LeadsTo(repo, request, createIfNotExists, target.value.alias);
      assert Served(repo, request, createIfNotExists, w);
      if AllServed(repo, rs, createIfNotExists, v) {
        AllServedStep(repo, rs, request, createIfNotExists, v, w);
      }
    }
  }

  lemma NeededStep(repo: Repository, rs: seq<PullRequest>, request: PullRequest, id: DatasetId)
    requires RepoOk(repo)
    ensures Needed(repo, rs, id) ==> Needed(repo, rs + [request], id)
    ensures FindLocal(repo, request).Some? && Reaches(LocalGraph(repo), FindLocal(repo, request).value, id) ==>
      Needed(repo, rs + [request], id)
  {
    var all := rs + [request];
    if Needed(repo, rs, id) {
      var i :| 0 <= i < |rs| && FindLocal(repo, rs[i]).Some? &&
        Reaches(LocalGraph(repo), FindLocal(repo, rs[i]).value, id);
      assert all[i] == rs[i];
    }
    assert all[|rs|] == request;
  }

  /** A request that names no remote is resolved exactly if it finds a dataset. */
  lemma LocalTarget(repo: Repository, request: PullRequest, createIfNotExists: bool)
    requires RepoOk(repo) && WellFormed(request) && request.remoteRef.None?
    ensures var t, found := Resolve(repo, request, createIfNotExists), FindLocal(repo, request);
      && (t.Ok? <==> found.Some?)
      && (t.Ok? ==> found.value in repo.aliases && t.value == Target(repo.aliases[found.value], found))
  {
  }

  lemma NowRegistered(
    repo: Repository, request: PullRequest, createIfNotExists: bool, v: Visited, r: Result<int, PullError>, w: Visited)
    requires RepoOk(repo) && WellFormed(request) && request.remoteRef.None? && AllRegistered(repo, v)
    requires Outcome(repo, request, true, createIfNotExists, v, r, w)
    ensures AllRegistered(repo, w)
  {
    LocalTarget(repo, request, createIfNotExists);
    forall a | a in w
      ensures Registered(repo, w[a])
    {
      if a in v {
        assert Registered(repo, v[a]);
      }
    }
  }

  lemma NowNeeded(
    repo: Repository, rs: seq<PullRequest>, request: PullRequest, createIfNotExists: bool,
    v: Visited, r: Result<int, PullError>, w: Visited)
    requires RepoOk(repo) && WellFormed(request) && request.remoteRef.None? && AllNeeded(repo, rs, v)
    requires Outcome(repo, request, true, createIfNotExists, v, r, w)
    ensures AllNeeded(repo, rs + [request], w)
  {
    LocalTarget(repo, request, createIfNotExists);
    if FindLocal(repo, request).Some? {
      NewReachedLocally(repo, FindLocal(repo, request).value, v, w);
    }
    forall a | a in w
      ensures NeededName(repo, rs + [request], a)
    {
      assert a in v ==> NeededName(repo, rs, a);
      NeededStep(repo, rs, request, repo.ids[a]);
    }
  }

  lemma FailsExactly(
    repo: Repository, request: PullRequest, createIfNotExists: bool, v: Visited, r: Result<int, PullError>, w: Visited)
    requires RepoOk(repo) && WellFormed(request) && request.remoteRef.None? && AllRegistered(repo, w)
    requires Outcome(repo, request, true, createIfNotExists, v, r, w)
    ensures r.Err? <==> Fails(repo, request)
  {
    LocalTarget(repo, request, createIfNotExists);
    if r.Err? && FindLocal(repo, request).Some? {
      BadAheadLeads(repo, v.Keys, FindLocal(repo, request).value);
    }
    if r.Ok? {
      VisitedIsGood(repo, w, FindLocal(repo, request).value);
    }
  }

  lemma {:induction false} FailingStep(repo: Repository, rs: seq<PullRequest>, request: PullRequest)
    requires RepoOk(repo)
    ensures Failing(repo, rs + [request]) == Failing(repo, rs) + if Fails(repo, request) then [request] else []
  {
    assert (rs + [request])[..|rs|] == rs;
  }

  lemma LocalProgressStep(
    repo: Repository, rs: seq<PullRequest>, request: PullRequest, createIfNotExists: bool,
    v: Visited, r: Result<int, PullError>, w: Visited, errors: seq<RequestError>)
    requires RepoOk(repo) && WellFormed(request) && request.remoteRef.None? && LocalProgress(repo, rs, v, errors)
    requires Outcome(repo, request, true, createIfNotExists, v, r, w)
    ensures LocalProgress(repo, rs + [request], w, if r.Err? then errors + [RequestError(request, r.error)] else errors)
  {
    NowRegistered(repo, request, createIfNotExists, v, r, w);
    NowNeeded(repo, rs, request, createIfNotExists, v, r, w);
    FailsExactly(repo, request, createIfNotExists, v, r, w);
    FailingStep(repo, rs, request);
  }

  /** One request after the other takes the map from each state to the next. */
  ghost predicate TraceAt(repo: Repository, request: PullRequest, createIfNotExists: bool, v: Visited, w: Visited)
    requires RepoOk(repo)
  {
    WellFormed(request) && exists r :: Outcome(repo, request, true, createIfNotExists, v, r, w)
  }

  /** The states of the map, from the empty one on. */
  ghost predicate IsTrace(repo: Repository, requests: seq<PullRequest>, createIfNotExists: bool, t: seq<Visited>)
    requires RepoOk(repo)
  {
    && |t| == |requests| + 1 && t[0] == map[]
    && forall i | 0 <= i < |requests| :: TraceAt(repo, requests[i], createIfNotExists, t[i], t[i + 1])
  }

  lemma TraceStep(
    repo: Repository, rs: seq<PullRequest>, request: PullRequest, createIfNotExists: bool,
    t: seq<Visited>, r: Result<int, PullError>, w: Visited)
    requires RepoOk(repo) && IsTrace(repo, rs, createIfNotExists, t)
    requires WellFormed(request) && Outcome(repo, request, true, createIfNotExists, t[|rs|], r, w)
    ensures IsTrace(repo, rs + [request], createIfNotExists, t + [w])
  {
    var all, u := rs + [request], t + [w];
    forall i | 0 <= i < |all|
      ensures TraceAt(repo, all[i], createIfNotExists, u[i], u[i + 1])
    {
      if i < |rs| {
        assert TraceAt(repo, rs[i], createIfNotExists, t[i], t[i + 1]);
      }
    }
  }

  /** The request succeeds. */
  ghost predicate SucceededAt(repo: Repository, request: PullRequest, createIfNotExists: bool, v: Visited, w: Visited)
    requires RepoOk(repo)
  {
    WellFormed(request) && exists depth :: Outcome(repo, request, true, createIfNotExists, v, Ok(depth), w)
  }

  ghost predicate Succeeded(repo: Repository, requests: seq<PullRequest>, createIfNotExists: bool, t: seq<Visited>)
    requires RepoOk(repo) && |t| == |requests| + 1
  {
    forall i | 0 <= i < |requests| :: SucceededAt(repo, requests[i], createIfNotExists, t[i], t[i + 1])
  }

  lemma SucceededStep(
    repo: Repository, rs: seq<PullRequest>, request: PullRequest, createIfNotExists: bool,
    t: seq<Visited>, depth: int, w: Visited)
    requires RepoOk(repo) && |t| == |rs| + 1 && Succeeded(repo, rs, createIfNotExists, t)
    requires WellFormed(request) && Outcome(repo, request, true, createIfNotExists, t[|rs|], Ok(depth), w)
    ensures Succeeded(repo, rs + [request], createIfNotExists, t + [w])
  {
    var all, u := rs + [request], t + [w];
    forall i | 0 <= i < |all|
      ensures SucceededAt(repo, all[i], createIfNotExists, u[i], u[i + 1])
    {
      if i < |rs| {
        assert SucceededAt(repo, rs[i], createIfNotExists, t[i], t[i + 1]);
      }
    }
  }

  /** What holds when some requests have been collected, with t the states of the map so far. */
  ghost predicate Collecting(
    repo: Repository, rs: seq<PullRequest>, createIfNotExists: bool, t: seq<Visited>, v: Visited,
    errors: seq<RequestError>)
    requires RepoOk(repo)
  {
    && IsTrace(repo, rs, createIfNotExists, t) && t[|rs|] == v
    && (errors == [] ==> Succeeded(repo, rs, createIfNotExists, t))
    && Progress(repo, rs, createIfNotExists, v, errors)
    && (NamesNoRemote(rs) ==> LocalProgress(repo, rs, v, errors))
  }

  function MoreErrors(errors: seq<RequestError>, request: PullRequest, r: Result<int, PullError>): seq<RequestError> {
    if r.Err? then errors + [RequestError(request, r.error)] else errors
  }

  lemma LocalCollecting(
    repo: Repository, rs: seq<PullRequest>, request: PullRequest, createIfNotExists: bool,
    v: Visited, r: Result<int, PullError>, w: Visited, errors: seq<RequestError>)
    requires RepoOk(repo) && WellFormed(request) && (NamesNoRemote(rs) ==> LocalProgress(repo, rs, v, errors))
    requires Outcome(repo, request, true, createIfNotExists, v, r, w)
    ensures NamesNoRemote(rs + [request]) ==> LocalProgress(repo, rs + [request], w, MoreErrors(errors, request, r))
  {
    var all := rs + [request];
    if NamesNoRemote(all) {
      assert all[|rs|] == request && forall i | 0 <= i < |rs| :: all[i] == rs[i];
      LocalProgressStep(repo, rs, request, createIfNotExists, v, r, w, errors);
    }
  }

  lemma CollectingStep(
    repo: Repository, rs: seq<PullRequest>, request: PullRequest, createIfNotExists: bool, t: seq<Visited>,
    r: Result<int, PullError>, w: Visited, errors: seq<RequestError>)
    requires RepoOk(repo) && WellFormed(request) && |t| == |rs| + 1
    requires Collecting(repo, rs, createIfNotExists, t, t[|rs|], errors)
    requires Outcome(repo, request, true, createIfNotExists, t[|rs|], r, w)
    ensures Collecting(repo, rs + [request], createIfNotExists, t + [w], w, MoreErrors(errors, request, r))
  {
    TraceStep(repo, rs, request, createIfNotExists, t, r, w);
    if r.Ok? && errors == [] {
      SucceededStep(repo, rs, request, createIfNotExists, t, r.value, w);
    }
    ProgressStep(repo, rs, request, createIfNotExists, t[|rs|], r, w);
    LocalCollecting(repo, rs, request, createIfNotExists, t[|rs|], r, w, errors);
  }

  /** The states of the map when the requests are collected one after the other. */
  ghost predicate Traced(
      repo: Repository, requests: seq<PullRequest>, createIfNotExists: bool, v: Visited, errors: seq<RequestError>)
    requires RepoOk(repo)
  {
    exists t ::
      && IsTrace(repo, requests, createIfNotExists, t) && t[|requests|] == v
      && (errors == [] ==> Succeeded(repo, requests, createIfNotExists, t))
  }

  /** The plan for all requests, sorted, and the requests that failed. */
  method CollectPullGraph(repo: Repository, requests: seq<PullRequest>, createIfNotExists: bool)
    returns (plan: seq<PullItem>, errors: seq<RequestError>, v: Visited)
    requires RepoOk(repo) && Acyclic(LocalGraph(repo)) && AllWellFormed(requests)
    ensures IsPlan(v, plan) && Progress(repo, requests, createIfNotExists, v, errors)
    ensures NamesNoRemote(requests) ==> LocalProgress(repo, requests, v, errors)
    ensures Traced(repo, requests, createIfNotExists, v, errors)
  {
    v := map[];
    errors := [];
    ghost var t := [v];
    var i := 0;
    while i < |requests|
      invariant 0 <= i <= |requests|
      invariant Collecting(repo, requests[..i], createIfNotExists, t, v, errors)
    {
      var r;
      r, v := Collect(repo, requests[i], true, createIfNotExists, v);
      CollectingStep(repo, requests[..i], requests[i], createIfNotExists, t, r, v, errors);
      assert requests[..i + 1] == requests[..i] + [requests[i]];
      t := t + [v];
      if r.Err? {
        errors := errors + [RequestError(requests[i], r.error)];
      }
      i := i + 1;
    }
    assert requests[..i] == requests;
    AliasesAsKeys(repo, v);
    plan := SortedValues(v);
  }

  lemma AliasesAsKeys(repo: Repository, v: Visited)
    requires RepoOk(repo) && Consistent(repo, v)
    ensures forall a | a in v :: v[a].alias == a
  {
    forall a | a in v
      ensures v[a].alias == a
    {
      assert ItemAt(repo, v, a);
    }
  }

  lemma ServedLocally(repo: Repository, request: PullRequest, createIfNotExists: bool, v: Visited)
    requires RepoOk(repo) && WellFormed(request) && request.remoteRef.None?
    requires Served(repo, request, createIfNotExists, v)
    ensures FindLocal(repo, request).Some? && Has(repo, v, FindLocal(repo, request).value)
  {
    LocalTarget(repo, request, createIfNotExists);
  }

  lemma NeededBy(repo: Repository, requests: seq<PullRequest>, id: DatasetId) returns (i: nat)
    requires RepoOk(repo) && Needed(repo, requests, id)
    ensures i < |requests| && FindLocal(repo, requests[i]).Some?
    ensures Reaches(LocalGraph(repo), FindLocal(repo, requests[i]).value, id)
  {
    i :| 0 <= i < |requests| && FindLocal(repo, requests[i]).Some? &&
      Reaches(LocalGraph(repo), FindLocal(repo, requests[i]).value, id);
  }

  lemma ReachedIsVisited(repo: Repository, v: Visited, start: DatasetId, a: Alias)
    requires RepoOk(repo) && ClosedUnderEdges(LocalGraph(repo), VisitedIds(repo, v)) && Has(repo, v, start)
    requires a in repo.ids && Reaches(LocalGraph(repo), start, repo.ids[a])
    ensures a in v
  {
    ClosedHoldsReachable(LocalGraph(repo), VisitedIds(repo, v), start, repo.ids[a]);
  }

  /** Without failures the plan holds all that the requests need. */
  lemma PlanHoldsNeeded(
      repo: Repository, requests: seq<PullRequest>, createIfNotExists: bool, v: Visited, a: Alias)
    requires RepoOk(repo) && AllWellFormed(requests) && NamesNoRemote(requests)
    requires ClosedUnderEdges(LocalGraph(repo), VisitedIds(repo, v)) && AllServed(repo, requests, createIfNotExists, v)
    requires a in repo.ids && Needed(repo, requests, repo.ids[a])
    ensures a in v
  {
    var i := NeededBy(repo, requests, repo.ids[a]);
    assert Served(repo, requests[i], createIfNotExists, v);
    ServedLocally(repo, requests[i], createIfNotExists, v);
    ReachedIsVisited(repo, v, FindLocal(repo, requests[i]).value, a);
  }

  /******* The order of requests does not matter *******/

  /** The same requests, in any order and number. */
  ghost predicate SameRequests(rs: seq<PullRequest>, ss: seq<PullRequest>) {
    forall r :: r in rs <==> r in ss
  }

  lemma NeededBySame(repo: Repository, rs: seq<PullRequest>, ss: seq<PullRequest>, id: DatasetId)
    requires RepoOk(repo) && SameRequests(rs, ss) && Needed(repo, rs, id)
    ensures Needed(repo, ss, id)
  {
    var i :| 0 <= i < |rs| && FindLocal(repo, rs[i]).Some? &&
      Reaches(LocalGraph(repo), FindLocal(repo, rs[i]).value, id);
    assert rs[i] in ss;
    var j :| 0 <= j < |ss| && ss[j] == rs[i];
  }

  lemma NotedBySame(
    repo: Repository, rs: seq<PullRequest>, ss: seq<PullRequest>, createIfNotExists: bool, v: Visited, w: Visited,
    a: Alias)
    requires SameRequests(rs, ss) && NotedRightly(repo, rs, createIfNotExists, v)
    requires AllServed(repo, ss, createIfNotExists, w)
    requires a in v && v[a].originalRequest.Some?
    ensures a in w && w[a].originalRequest.Some?
  {
    var request := v[a].originalRequest.value;
    assert request in ss;
    var j :| 0 <= j < |ss| && ss[j] == request;
    assert Served(repo, ss[j], createIfNotExists, w);
  }

  /** What a run of the collection without failures establishes, if no request names a remote. */
  ghost predicate Complete(repo: Repository, requests: seq<PullRequest>, createIfNotExists: bool, v: Visited)
    requires RepoOk(repo)
  {
    Progress(repo, requests, createIfNotExists, v, []) && LocalProgress(repo, requests, v, [])
  }

  lemma SameKey(
    repo: Repository, rs: seq<PullRequest>, ss: seq<PullRequest>, createIfNotExists: bool, v: Visited, w: Visited,
    a: Alias)
    requires RepoOk(repo) && AllWellFormed(rs) && AllWellFormed(ss) && NamesNoRemote(rs) && NamesNoRemote(ss)
    requires SameRequests(rs, ss)
    requires Complete(repo, rs, createIfNotExists, v) && Complete(repo, ss, createIfNotExists, w) && a in v
    ensures a in w
  {
    VisitedClosed(repo, w);
    assert NeededName(repo, rs, a);
    NeededBySame(repo, rs, ss, repo.ids[a]);
    PlanHoldsNeeded(repo, ss, createIfNotExists, w, a);
  }

  lemma SameKeys(
    repo: Repository, rs: seq<PullRequest>, ss: seq<PullRequest>, createIfNotExists: bool, v: Visited, w: Visited)
    requires RepoOk(repo) && AllWellFormed(rs) && AllWellFormed(ss) && NamesNoRemote(rs) && NamesNoRemote(ss)
    requires SameRequests(rs, ss)
    requires Complete(repo, rs, createIfNotExists, v) && Complete(repo, ss, createIfNotExists, w)
    ensures v.Keys <= w.Keys
  {
    forall a | a in v
      ensures a in w
    {
      SameKey(repo, rs, ss, createIfNotExists, v, w, a);
    }
  }

  lemma SameBareItems(repo: Repository, v: Visited, w: Visited)
    requires RepoOk(repo) && Consistent(repo, v) && Consistent(repo, w) && AllRegistered(repo, v)
    requires AllRegistered(repo, w)
    requires v.Keys == w.Keys
    ensures forall a | a in v :: v[a].(originalRequest := None) == w[a].(originalRequest := None)
  {
    forall a | a in v
      ensures v[a].(originalRequest := None) == w[a].(originalRequest := None)
    {
      ItemDetermined(repo, v, w, a);
    }
  }

  lemma SameNotes(
    repo: Repository, rs: seq<PullRequest>, ss: seq<PullRequest>, createIfNotExists: bool, v: Visited, w: Visited)
    requires SameRequests(rs, ss) && NotedRightly(repo, rs, createIfNotExists, v)
    requires AllServed(repo, ss, createIfNotExists, w)
    ensures forall a | a in v && v[a].originalRequest.Some? :: a in w && w[a].originalRequest.Some?
  {
    forall a | a in v && v[a].originalRequest.Some?
      ensures a in w && w[a].originalRequest.Some?
    {
      NotedBySame(repo, rs, ss, createIfNotExists, v, w, a);
    }
  }

  /** Whatever the order of the requests, the same items come out, with the same depths and
      sources, and the same ones are explicit. */
  lemma SameItemsInAnyOrder(
    repo: Repository, rs: seq<PullRequest>, ss: seq<PullRequest>, createIfNotExists: bool, v: Visited, w: Visited)
    requires RepoOk(repo) && AllWellFormed(rs) && AllWellFormed(ss) && NamesNoRemote(rs) && NamesNoRemote(ss)
    requires SameRequests(rs, ss)
    requires Complete(repo, rs, createIfNotExists, v) && Complete(repo, ss, createIfNotExists, w)
    ensures SameItems(v, w)
  {
    SameKeys(repo, rs, ss, createIfNotExists, v, w);
    SameKeys(repo, ss, rs, createIfNotExists, w, v);
    SameBareItems(repo, v, w);
    SameNotes(repo, rs, ss, createIfNotExists, v, w);
    SameNotes(repo, ss, rs, createIfNotExists, w, v);
  }

  /** The items without the remembered requests. */
  function Bare(plan: seq<PullItem>): (r: seq<PullItem>)
    ensures |r| == |plan| && forall i | 0 <= i < |r| :: r[i] == plan[i].(originalRequest := None)
  {
    seq(|plan|, i requires 0 <= i < |plan| => plan[i].(originalRequest := None))
  }

  lemma BareElements(v: Visited, plan: seq<PullItem>, x: PullItem)
    requires IsPlan(v, plan)
    ensures x in Bare(plan) <==> x.alias in v && x == v[x.alias].(originalRequest := None)
  {
    var bare := Bare(plan);
    if x in bare {
      var i :| 0 <= i < |bare| && bare[i] == x;
      assert plan[i].alias == x.alias;
    }
    if x.alias in v && x == v[x.alias].(originalRequest := None) {
      var i :| 0 <= i < |plan| && plan[i] == v[x.alias];
      assert bare[i] == x;
    }
  }

  lemma SameElementsSameCounts(s: seq<PullItem>, t: seq<PullItem>)
    requires DistinctAliases(s) && DistinctAliases(t) && forall x :: x in s <==> x in t
    ensures multiset(s) == multiset(t)
  {
    forall x
      ensures multiset(s)[x] == multiset(t)[x]
    {
      AliasCount(s, x);
      AliasCount(t, x);
      assert x in s <==> x in t;
      assert multiset(s)[x] > 0 <==> x in s;
      assert multiset(t)[x] > 0 <==> x in t;
    }
  }

  lemma AliasesBreakTies(s: seq<PullItem>)
    requires DistinctAliases(s)
    ensures Sorting.NoTies(s, ItemLe)
  {
    forall i, j | 0 <= i < |s| && 0 <= j < |s| && ItemLe(s[i], s[j]) && ItemLe(s[j], s[i])
      ensures s[i] == s[j]
    {
      TextTotal(s[i].alias, s[j].alias);
    }
  }

  lemma BareSorted(v: Visited, plan: seq<PullItem>)
    requires IsPlan(v, plan)
    ensures Sorting.Sorted(Bare(plan), ItemLe) && DistinctAliases(Bare(plan))
  {
  }

  lemma SameBareElements(v: Visited, w: Visited, p: seq<PullItem>, q: seq<PullItem>)
    requires IsPlan(v, p) && IsPlan(w, q) && SameItems(v, w)
    ensures forall x :: x in Bare(p) <==> x in Bare(q)
  {
    forall x
      ensures x in Bare(p) <==> x in Bare(q)
    {
      BareElements(v, p, x);
      BareElements(w, q, x);
    }
  }

  /** The plans are the same, up to which of several equivalent requests is remembered. */
  lemma SamePlan(v: Visited, w: Visited, p: seq<PullItem>, q: seq<PullItem>)
    requires IsPlan(v, p) && IsPlan(w, q) && SameItems(v, w)
    ensures Bare(p) == Bare(q)
  {
    SameBareElements(v, w, p, q);
    BareSorted(v, p);
    BareSorted(w, q);
    SameElementsSameCounts(Bare(p), Bare(q));
    AliasesBreakTies(Bare(p));
    Sorting.SortedUnique(Bare(p), Bare(q), ItemLe);
  }
}
