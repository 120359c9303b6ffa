/** Which remote a dataset is pulled from when requests name remotes. */
module PullRemotes {
  import opened Wrappers
  import opened Odf
  import opened Graphs
  import opened PullModel
  import opened PullPlan
  import opened PullOrder
  import opened PullService

  /******* The first visit decides *******/

  /** What a request leaves of an item that is there. */
  lemma RemoteKeptAt(
    repo: Repository, request: PullRequest, createIfNotExists: bool, v: Visited, w: Visited, a: Alias)
    requires RepoOk(repo) && TraceAt(repo, request, createIfNotExists, v, w) && a in v
    ensures a in w && w[a].remoteRef == v[a].remoteRef
  {
  }

  lemma {:induction false} RemoteKept(
    repo: Repository, rs: seq<PullRequest>, createIfNotExists: bool, t: seq<Visited>, i: nat, j: nat, a: Alias)
    requires RepoOk(repo) && IsTrace(repo, rs, createIfNotExists, t) && i <= j <= |rs| && a in t[i]
    ensures a in t[j] && t[j][a].remoteRef == t[i][a].remoteRef
    decreases j - i
  {
    if i == j {
    } else {
      assert TraceAt(repo, rs[i], createIfNotExists, t[i], t[i + 1]);
      RemoteKeptAt(repo, rs[i], createIfNotExists, t[i], t[i + 1], a);
      RemoteKept(repo, rs, createIfNotExists, t, i + 1, j, a);
    }
  }

  /** The source that a request gives to an item that it is the first to visit: the remote that it
      names if it leads there, and the registered one if it only needs it. */
  ghost predicate GivesSource(
      repo: Repository, request: PullRequest, createIfNotExists: bool, a: Alias, remote: Option<RemoteRef>)
    requires RepoOk(repo)
  {
    if LeadsTo(repo, request, createIfNotExists, a) then
      RemoteOf(repo, Resolve(repo, request, createIfNotExists).value, request) == Ok(remote)
    else a in repo.ids && PullAlias(repo, repo.ids[a]) == Ok(remote)
  }

  lemma FirstVisit(
    repo: Repository, request: PullRequest, createIfNotExists: bool, v: Visited, w: Visited, a: Alias)
    requires RepoOk(repo) && TraceAt(repo, request, createIfNotExists, v, w) && a !in v && a in w
    ensures GivesSource(repo, request, createIfNotExists, a, w[a].remoteRef)
  {
  }

  /** In the plan an item has the source that the first request to visit it gives, whatever the
      later ones name. */
  lemma FirstVisitDecides(
    repo: Repository, rs: seq<PullRequest>, createIfNotExists: bool, t: seq<Visited>, i: nat, a: Alias)
    requires RepoOk(repo) && IsTrace(repo, rs, createIfNotExists, t) && i < |rs| && a !in t[i] && a in t[i + 1]
    ensures a in t[|rs|] && GivesSource(repo, rs[i], createIfNotExists, a, t[|rs|][a].remoteRef)
  {
    assert TraceAt(repo, rs[i], createIfNotExists, t[i], t[i + 1]);
    FirstVisit(repo, rs[i], createIfNotExists, t[i], t[i + 1], a);
    RemoteKept(repo, rs, createIfNotExists, t, i + 1, |rs|, a);
  }

  /******* Requests that name remotes, one after the other *******/

  /** The first of the requests that leads to the name. */
  ghost predicate IsFirst(repo: Repository, rs: seq<PullRequest>, createIfNotExists: bool, i: nat, a: Alias) {
    && i < |rs| && LeadsTo(repo, rs[i], createIfNotExists, a)
    && forall k | 0 <= k < i :: !LeadsTo(repo, rs[k], createIfNotExists, a)
  }

  lemma RemoteVisitsTarget(
    repo: Repository, request: PullRequest, createIfNotExists: bool, v: Visited, w: Visited, a: Alias)
    requires RepoOk(repo) && TraceAt(repo, request, createIfNotExists, v, w) && request.remoteRef.Some?
    ensures a in w <==> a in v || LeadsTo(repo, request, createIfNotExists, a)
  {
  }

  lemma {:induction false} VisitedByRemotes(
    repo: Repository, rs: seq<PullRequest>, createIfNotExists: bool, t: seq<Visited>, i: nat, a: Alias)
    requires RepoOk(repo) && IsTrace(repo, rs, createIfNotExists, t) && i <= |rs|
    requires forall k | 0 <= k < i :: rs[k].remoteRef.Some?
    ensures a in t[i] <==> exists k | 0 <= k < i :: LeadsTo(repo, rs[k], createIfNotExists, a)
  {
    if i == 0 {
    } else {
      VisitedByRemotes(repo, rs, createIfNotExists, t, i - 1, a);
      assert TraceAt(repo, rs[i - 1], createIfNotExists, t[i - 1], t[i]);
      RemoteVisitsTarget(repo, rs[i - 1], createIfNotExists, t[i - 1], t[i], a);
    }
  }

  /** As long as only requests that name a remote came before, a dataset is pulled from the remote
      that a request names exactly if the first request for this dataset names the same one.  So
      with all such requests in front, each dataset has one remote, independent of the others. */
  lemma RemotesInFront(
    repo: Repository, rs: seq<PullRequest>, createIfNotExists: bool, t: seq<Visited>, i: nat, j: nat, a: Alias)
    requires RepoOk(repo) && IsTrace(repo, rs, createIfNotExists, t)
    requires i <= j < |rs| && (forall k | 0 <= k <= i :: rs[k].remoteRef.Some?)
    requires IsFirst(repo, rs, createIfNotExists, i, a) && LeadsTo(repo, rs[j], createIfNotExists, a)
    ensures a in t[|rs|]
    ensures t[|rs|][a].remoteRef == rs[j].remoteRef <==> rs[i].remoteRef == rs[j].remoteRef
  {
    VisitedByRemotes(repo, rs, createIfNotExists, t, i, a);
    assert TraceAt(repo, rs[i], createIfNotExists, t[i], t[i + 1]);
    RemoteVisitsTarget(repo, rs[i], createIfNotExists, t[i], t[i + 1], a);
    FirstVisitDecides(repo, rs, createIfNotExists, t, i, a);
  }

  /******* The names that a list of requests visits *******/

  /** The request fails after the given names have been visited. */
  ghost predicate FailsAfter(repo: Repository, request: PullRequest, createIfNotExists: bool, names: set<Alias>)
    requires RepoOk(repo) && WellFormed(request)
  {
    var t := Resolve(repo, request, createIfNotExists);
    t.Err? || (request.remoteRef.None? && t.value.handle.Some? && BadAhead(repo, names, t.value.handle.value))
  }

  /** What the request visits then: its target alone if it names a remote, and otherwise everything
      that a descent meets which stops at the names visited before. */
  ghost function NewNames(
      repo: Repository, request: PullRequest, createIfNotExists: bool, names: set<Alias>): set<Alias>
    requires RepoOk(repo) && WellFormed(request)
  {
    var t := Resolve(repo, request, createIfNotExists);
    if t.Err? then {}
    else if request.remoteRef.Some? then {t.value.alias}
    else if t.value.handle.None? then {}
    else set a | a in repo.ids && Reaches(CutGraph(repo, names), t.value.handle.value, repo.ids[a])
  }

  /** The names that the requests visit, one after the other. */
  ghost function NamesVisited(repo: Repository, rs: seq<PullRequest>, createIfNotExists: bool): set<Alias>
    requires RepoOk(repo) && AllWellFormed(rs)
  {
    if rs == [] then {}
    else
      var before := NamesVisited(repo, rs[..|rs| - 1], createIfNotExists);
      before + NewNames(repo, rs[|rs| - 1], createIfNotExists, before)
  }

  ghost predicate SucceedsAt(repo: Repository, rs: seq<PullRequest>, createIfNotExists: bool, i: nat)
    requires RepoOk(repo) && AllWellFormed(rs) && i < |rs|
  {
    !FailsAfter(repo, rs[i], createIfNotExists, NamesVisited(repo, rs[..i], createIfNotExists))
  }

  ghost predicate NoneFails(repo: Repository, rs: seq<PullRequest>, createIfNotExists: bool)
    requires RepoOk(repo) && AllWellFormed(rs)
  {
    forall i {:trigger SucceedsAt(repo, rs, createIfNotExists, i)} | 0 <= i < |rs| ::
      SucceedsAt(repo, rs, createIfNotExists, i)
  }

  lemma {:induction false} NamesStep(repo: Repository, rs: seq<PullRequest>, createIfNotExists: bool, i: nat)
    requires RepoOk(repo) && AllWellFormed(rs) && i < |rs|
    ensures var before := NamesVisited(repo, rs[..i], createIfNotExists);
      NamesVisited(repo, rs[..i + 1], createIfNotExists) ==
        before + NewNames(repo, rs[i], createIfNotExists, before)
  {
    assert rs[..i + 1][..i] == rs[..i];
  }

  /** An item that was not there before lets the descent go on where the repository does. */
  lemma NewItemRegistered(
    repo: Repository, t: Target, request: PullRequest, explicit: bool, v: Visited, w: Visited, a: Alias)
    requires RepoOk(repo) && request.remoteRef.None? && Collected(repo, v, w, t, request, explicit)
    requires t.handle.Some? && t.handle.value in repo.aliases && repo.aliases[t.handle.value] == t.alias
    requires a in w && a !in v
    ensures Registered(repo, w[a]) && w[a].alias == a
  {
  }

  /** After a request that succeeded, a descent from there meets nothing new. */
  lemma DescentClosed(
    repo: Repository, t: Target, request: PullRequest, explicit: bool, v: Visited, w: Visited)
    requires RepoOk(repo) && request.remoteRef.None? && Collected(repo, v, w, t, request, explicit)
    requires t.handle.Some? && t.handle.value in repo.aliases && repo.aliases[t.handle.value] == t.alias
    requires Consistent(repo, w)
    ensures ClosedUnderEdges(CutGraph(repo, v.Keys), VisitedIds(repo, w))
  {
    forall x, y | x in VisitedIds(repo, w) && Edge(CutGraph(repo, v.Keys), x, y)
      ensures y in VisitedIds(repo, w)
    {
      var a := repo.aliases[x];
      NewItemRegistered(repo, t, request, explicit, v, w, a);
      assert ItemAt(repo, w, a);
      var i :| 0 <= i < |repo.dependencies[x]| && repo.dependencies[x][i] == y;
      assert Has(repo, w, repo.dependencies[x][i]);
    }
  }

  lemma DescentVisits(
    repo: Repository, t: Target, request: PullRequest, explicit: bool, v: Visited, w: Visited, n: DatasetId)
    requires RepoOk(repo) && request.remoteRef.None? && Collected(repo, v, w, t, request, explicit)
    requires t.handle.Some? && t.handle.value in repo.aliases && repo.aliases[t.handle.value] == t.alias
    requires Consistent(repo, w) && Reaches(CutGraph(repo, v.Keys), t.handle.value, n)
    ensures n in repo.aliases && repo.aliases[n] in w
    ensures repo.aliases[n] !in v ==> !Bad(repo, n)
  {
    DescentClosed(repo, t, request, explicit, v, w);
    ClosedHoldsReachable(CutGraph(repo, v.Keys), VisitedIds(repo, w), t.handle.value, n);
    if repo.aliases[n] !in v {
      NewItemRegistered(repo, t, request, explicit, v, w, repo.aliases[n]);
    }
  }

  /** A request without a remote fails exactly if its descent meets a bad dataset, and otherwise
      visits exactly what the descent meets. */
  lemma LocalVisits(
    repo: Repository, request: PullRequest, createIfNotExists: bool, v: Visited, r: Result<int, PullError>, w: Visited)
    requires RepoOk(repo) && WellFormed(request) && request.remoteRef.None?
    requires Outcome(repo, request, true, createIfNotExists, v, r, w)
    ensures r.Err? <==> FailsAfter(repo, request, createIfNotExists, v.Keys)
    ensures r.Ok? ==> w.Keys == v.Keys + NewNames(repo, request, createIfNotExists, v.Keys)
  {
    LocalTarget(repo, request, createIfNotExists);
    if r.Ok? {
      var t := Resolve(repo, request, createIfNotExists).value;
      forall n | Reaches(CutGraph(repo, v.Keys), t.handle.value, n)
        ensures n in repo.aliases && repo.aliases[n] in w
        ensures repo.aliases[n] !in v ==> !Bad(repo, n)
      {
        DescentVisits(repo, t, request, true, v, w, n);
      }
    }
  }

  lemma RequestVisits(
    repo: Repository, request: PullRequest, createIfNotExists: bool, v: Visited, w: Visited)
    requires RepoOk(repo) && TraceAt(repo, request, createIfNotExists, v, w)
    requires !FailsAfter(repo, request, createIfNotExists, v.Keys)
    ensures w.Keys == v.Keys + NewNames(repo, request, createIfNotExists, v.Keys)
  {
    if request.remoteRef.None? {
      var r :| Outcome(repo, request, true, createIfNotExists, v, r, w);
      LocalVisits(repo, request, createIfNotExists, v, r, w);
    } else {
      forall a ensures a in w <==> a in v || LeadsTo(repo, request, createIfNotExists, a) {
        RemoteVisitsTarget(repo, request, createIfNotExists, v, w, a);
      }
    }
  }

  lemma SucceededVisits(
    repo: Repository, request: PullRequest, createIfNotExists: bool, v: Visited, w: Visited)
    requires RepoOk(repo) && SucceededAt(repo, request, createIfNotExists, v, w)
    ensures !FailsAfter(repo, request, createIfNotExists, v.Keys)
    ensures w.Keys == v.Keys + NewNames(repo, request, createIfNotExists, v.Keys)
  {
    var depth :| Outcome(repo, request, true, createIfNotExists, v, Ok(depth), w);
    if request.remoteRef.None? {
      LocalVisits(repo, request, createIfNotExists, v, Ok(depth), w);
    }
    RequestVisits(repo, request, createIfNotExists, v, w);
  }

  lemma SuccessfulStep(repo: Repository, rs: seq<PullRequest>, createIfNotExists: bool, t: seq<Visited>, n: nat)
    requires RepoOk(repo) && AllWellFormed(rs) && n < |rs| && |t| == |rs| + 1
    requires Succeeded(repo, rs, createIfNotExists, t)
    requires t[n].Keys == NamesVisited(repo, rs[..n], createIfNotExists)
    ensures t[n + 1].Keys == NamesVisited(repo, rs[..n + 1], createIfNotExists)
    ensures SucceedsAt(repo, rs, createIfNotExists, n)
  {
    assert SucceededAt(repo, rs[n], createIfNotExists, t[n], t[n + 1]);
    SucceededVisits(repo, rs[n], createIfNotExists, t[n], t[n + 1]);
    NamesStep(repo, rs, createIfNotExists, n);
  }

  lemma {:induction false} SuccessfulNames(
    repo: Repository, rs: seq<PullRequest>, createIfNotExists: bool, t: seq<Visited>, i: nat)
    requires RepoOk(repo) && AllWellFormed(rs) && |t| == |rs| + 1 && t[0] == map[]
    requires Succeeded(repo, rs, createIfNotExists, t) && i <= |rs|
    ensures t[i].Keys == NamesVisited(repo, rs[..i], createIfNotExists)
  {
    if i == 0 {
      assert rs[..0] == [];
    } else {
      var n := i - 1;
      SuccessfulNames(repo, rs, createIfNotExists, t, n);
      SuccessfulStep(repo, rs, createIfNotExists, t, n);
    }
  }

  /** A run reports no failure only if the repository and the list hold none. */
  lemma SuccessfulRun(repo: Repository, rs: seq<PullRequest>, createIfNotExists: bool, t: seq<Visited>)
    requires RepoOk(repo) && AllWellFormed(rs) && |t| == |rs| + 1 && t[0] == map[]
    requires Succeeded(repo, rs, createIfNotExists, t)
    ensures NoneFails(repo, rs, createIfNotExists)
  {
    forall i | 0 <= i < |rs|
      ensures SucceedsAt(repo, rs, createIfNotExists, i)
    {
      SuccessfulNames(repo, rs, createIfNotExists, t, i);
      SuccessfulStep(repo, rs, createIfNotExists, t, i);
    }
  }

  /** Without failures the names visited are those that the repository and the list determine. */
  lemma {:induction false} TraceVisits(
    repo: Repository, rs: seq<PullRequest>, createIfNotExists: bool, t: seq<Visited>, i: nat)
    requires RepoOk(repo) && AllWellFormed(rs) && IsTrace(repo, rs, createIfNotExists, t)
    requires NoneFails(repo, rs, createIfNotExists) && i <= |rs|
    ensures t[i].Keys == NamesVisited(repo, rs[..i], createIfNotExists)
  {
    if i == 0 {
    } else {
      var n := i - 1;
      TraceVisits(repo, rs, createIfNotExists, t, n);
      NamesStep(repo, rs, createIfNotExists, n);
      assert SucceedsAt(repo, rs, createIfNotExists, n);
      assert TraceAt(repo, rs[n], createIfNotExists, t[n], t[n + 1]);
      RequestVisits(repo, rs[n], createIfNotExists, t[n], t[n + 1]);
    }
  }

  /** The request is the first to visit the name. */
  ghost predicate FirstVisits(repo: Repository, rs: seq<PullRequest>, createIfNotExists: bool, i: nat, a: Alias)
    requires RepoOk(repo) && AllWellFormed(rs) && i < |rs|
  {
    a !in NamesVisited(repo, rs[..i], createIfNotExists) && a in NamesVisited(repo, rs[..i + 1], createIfNotExists)
  }

  ghost function FirstVisitor(repo: Repository, rs: seq<PullRequest>, createIfNotExists: bool, a: Alias): (i: nat)
    requires RepoOk(repo) && AllWellFormed(rs) && a in NamesVisited(repo, rs, createIfNotExists)
    ensures i < |rs| && FirstVisits(repo, rs, createIfNotExists, i, a)
  {
    var n := |rs| - 1;
    assert rs[..n + 1] == rs;
    if a in NamesVisited(repo, rs[..n], createIfNotExists) then
      var i := FirstVisitor(repo, rs[..n], createIfNotExists, a);
      assert rs[..n][..i] == rs[..i] && rs[..n][..i + 1] == rs[..i + 1];
      i
    else n
  }

  /** The first request to visit a name gives the dataset its source. */
  lemma VisitorDecides(
    repo: Repository, rs: seq<PullRequest>, createIfNotExists: bool, t: seq<Visited>, i: nat, a: Alias)
    requires RepoOk(repo) && AllWellFormed(rs) && IsTrace(repo, rs, createIfNotExists, t)
    requires NoneFails(repo, rs, createIfNotExists) && i < |rs| && FirstVisits(repo, rs, createIfNotExists, i, a)
    ensures a in t[|rs|] && GivesSource(repo, rs[i], createIfNotExists, a, t[|rs|][a].remoteRef)
  {
    TraceVisits(repo, rs, createIfNotExists, t, i);
    TraceVisits(repo, rs, createIfNotExists, t, i + 1);
    FirstVisitDecides(repo, rs, createIfNotExists, t, i, a);
  }

  lemma {:induction false} TargetVisited(
      repo: Repository, rs: seq<PullRequest>, createIfNotExists: bool, j: nat, a: Alias)
    requires RepoOk(repo) && AllWellFormed(rs) && j < |rs| && rs[j].remoteRef.Some?
    requires LeadsTo(repo, rs[j], createIfNotExists, a)
    requires a !in NamesVisited(repo, rs[..j], createIfNotExists)
    ensures FirstVisits(repo, rs, createIfNotExists, j, a)
  {
    NamesStep(repo, rs, createIfNotExists, j);
  }

  lemma FrontVisitor(
      repo: Repository, rs: seq<PullRequest>, createIfNotExists: bool, j: nat, i: nat, a: Alias)
    requires RepoOk(repo) && AllWellFormed(rs) && i < j <= |rs| && FirstVisits(repo, rs[..j], createIfNotExists, i, a)
    ensures FirstVisits(repo, rs, createIfNotExists, i, a)
  {
    assert rs[..j][..i] == rs[..i] && rs[..j][..i + 1] == rs[..i + 1];
  }

  /** The request that decides the source of a dataset for which request j names a remote: the
      first earlier one that visits the dataset, or the request itself. */
  ghost function Decider(repo: Repository, rs: seq<PullRequest>, createIfNotExists: bool, j: nat, a: Alias): (i: nat)
    requires RepoOk(repo) && AllWellFormed(rs) && j < |rs|
    ensures i <= j
  {
    if a in NamesVisited(repo, rs[..j], createIfNotExists) then FirstVisitor(repo, rs[..j], createIfNotExists, a) else j
  }

  lemma DeciderVisits(
      repo: Repository, rs: seq<PullRequest>, createIfNotExists: bool, j: nat, a: Alias)
    requires RepoOk(repo) && AllWellFormed(rs) && j < |rs| && rs[j].remoteRef.Some?
    requires LeadsTo(repo, rs[j], createIfNotExists, a)
    ensures FirstVisits(repo, rs, createIfNotExists, Decider(repo, rs, createIfNotExists, j, a), a)
  {
    if a in NamesVisited(repo, rs[..j], createIfNotExists) {
      FrontVisitor(repo, rs, createIfNotExists, j, FirstVisitor(repo, rs[..j], createIfNotExists, a), a);
    } else {
      TargetVisited(repo, rs, createIfNotExists, j, a);
    }
  }

  lemma OneSource(
    repo: Repository, request: PullRequest, createIfNotExists: bool, a: Alias, p: Option<RemoteRef>,
    q: Option<RemoteRef>)
    requires RepoOk(repo) && GivesSource(repo, request, createIfNotExists, a, p)
    ensures GivesSource(repo, request, createIfNotExists, a, q) <==> p == q
  {
  }

  /** In every list without failures, a dataset is pulled from the remote that a request names
      exactly if the request that decides its source gives it that one: the first earlier request
      that visits the dataset, if there is one. */
  lemma {:induction false} RemoteHonouredIff(
    repo: Repository, rs: seq<PullRequest>, createIfNotExists: bool, t: seq<Visited>, j: nat, a: Alias)
    requires RepoOk(repo) && AllWellFormed(rs) && IsTrace(repo, rs, createIfNotExists, t)
    requires NoneFails(repo, rs, createIfNotExists)
    requires j < |rs| && rs[j].remoteRef.Some? && LeadsTo(repo, rs[j], createIfNotExists, a)
    ensures var i := Decider(repo, rs, createIfNotExists, j, a);
      && a in t[|rs|]
      && (t[|rs|][a].remoteRef == rs[j].remoteRef <==>
            GivesSource(repo, rs[i], createIfNotExists, a, rs[j].remoteRef))
      && (a !in NamesVisited(repo, rs[..j], createIfNotExists) ==> t[|rs|][a].remoteRef == rs[j].remoteRef)
  {
    var i := Decider(repo, rs, createIfNotExists, j, a);
    DeciderVisits(repo, rs, createIfNotExists, j, a);
    VisitorDecides(repo, rs, createIfNotExists, t, i, a);
    OneSource(repo, rs[i], createIfNotExists, a, t[|rs|][a].remoteRef, rs[j].remoteRef);
  }

  /******* The first request that names a remote *******/

  /** The requests name no remote, and none leads to a missing or ambiguous dataset. */
  ghost predicate AllLocal(repo: Repository, rs: seq<PullRequest>)
    requires RepoOk(repo)
  {
    NamesNoRemote(rs) && forall k | 0 <= k < |rs| :: !Fails(repo, rs[k])
  }

  lemma LocalStep(
    repo: Repository, rs: seq<PullRequest>, request: PullRequest, createIfNotExists: bool, v: Visited, w: Visited)
    requires RepoOk(repo) && request.remoteRef.None? && !Fails(repo, request)
    requires Complete(repo, rs, createIfNotExists, v) && TraceAt(repo, request, createIfNotExists, v, w)
    ensures Complete(repo, rs + [request], createIfNotExists, w)
  {
    var r :| Outcome(repo, request, true, createIfNotExists, v, r, w);
    NowRegistered(repo, request, createIfNotExists, v, r, w);
    FailsExactly(repo, request, createIfNotExists, v, r, w);
    ProgressStep(repo, rs, request, createIfNotExists, v, r, w);
    LocalProgressStep(repo, rs, request, createIfNotExists, v, r, w, []);
  }

  lemma {:induction false} LocalTrace(
    repo: Repository, rs: seq<PullRequest>, createIfNotExists: bool, t: seq<Visited>, i: nat)
    requires RepoOk(repo) && IsTrace(repo, rs, createIfNotExists, t) && i <= |rs| && AllLocal(repo, rs[..i])
    ensures Complete(repo, rs[..i], createIfNotExists, t[i])
  {
    if i == 0 {
    } else {
      var n := i - 1;
      assert rs[..i] == rs[..n] + [rs[n]];
      assert rs[..i][n] == rs[n];
      forall k | 0 <= k < n ensures !Fails(repo, rs[..n][k]) && rs[..n][k].remoteRef.None? {
        assert rs[..n][k] == rs[..i][k];
      }
      LocalTrace(repo, rs, createIfNotExists, t, n);
      assert TraceAt(repo, rs[n], createIfNotExists, t[n], t[i]);
      LocalStep(repo, rs[..n], rs[n], createIfNotExists, t[n], t[i]);
    }
  }

  /** Requests that name no remote visit exactly what they need. */
  lemma VisitedByLocals(
    repo: Repository, rs: seq<PullRequest>, createIfNotExists: bool, t: seq<Visited>, i: nat, a: Alias)
    requires RepoOk(repo) && IsTrace(repo, rs, createIfNotExists, t) && i <= |rs| && AllLocal(repo, rs[..i])
    ensures a in t[i] <==> NeededName(repo, rs[..i], a)
    ensures a in t[i] ==> PullAlias(repo, repo.ids[a]) == Ok(t[i][a].remoteRef)
  {
    LocalTrace(repo, rs, createIfNotExists, t, i);
    VisitedClosed(repo, t[i]);
    assert a in t[i] ==> NeededName(repo, rs[..i], a) && ItemAt(repo, t[i], a) && Registered(repo, t[i][a]);
    if NeededName(repo, rs[..i], a) {
      forall k | 0 <= k < i ensures WellFormed(rs[..i][k]) {
        assert TraceAt(repo, rs[k], createIfNotExists, t[k], t[k + 1]);
      }
      PlanHoldsNeeded(repo, rs[..i], createIfNotExists, t[i], a);
    }
  }

  /** The first request that names a remote gets its dataset from there exactly if no earlier
      request needs this dataset, or if that remote is the registered one anyway. */
  lemma FirstRemoteHonouredIff(
    repo: Repository, rs: seq<PullRequest>, createIfNotExists: bool, t: seq<Visited>, i: nat, a: Alias)
    requires RepoOk(repo) && IsTrace(repo, rs, createIfNotExists, t) && i < |rs| && AllLocal(repo, rs[..i])
    requires rs[i].remoteRef.Some? && LeadsTo(repo, rs[i], createIfNotExists, a)
    ensures a in t[|rs|]
    ensures t[|rs|][a].remoteRef == rs[i].remoteRef <==>
      !NeededName(repo, rs[..i], a) || PullAlias(repo, repo.ids[a]) == Ok(rs[i].remoteRef)
  {
    VisitedByLocals(repo, rs, createIfNotExists, t, i, a);
    if a in t[i] {
      RemoteKept(repo, rs, createIfNotExists, t, i, |rs|, a);
    } else {
      assert TraceAt(repo, rs[i], createIfNotExists, t[i], t[i + 1]);
      RemoteVisitsTarget(repo, rs[i], createIfNotExists, t[i], t[i + 1], a);
      FirstVisitDecides(repo, rs, createIfNotExists, t, i, a);
    }
  }

  /** The request leads to the name, or names no remote and needs it. */
  ghost predicate Touches(repo: Repository, request: PullRequest, createIfNotExists: bool, a: Alias)
    requires RepoOk(repo)
  {
    LeadsTo(repo, request, createIfNotExists, a) || (request.remoteRef.None? && NeededName(repo, [request], a))
  }

  lemma NewIsTouched(
    repo: Repository, request: PullRequest, createIfNotExists: bool, v: Visited, w: Visited, a: Alias)
    requires RepoOk(repo) && TraceAt(repo, request, createIfNotExists, v, w) && a in w && a !in v
    ensures Touches(repo, request, createIfNotExists, a)
  {
    if request.remoteRef.None? {
      LocalTarget(repo, request, createIfNotExists);
      NewReachedLocally(repo, FindLocal(repo, request).value, v, w);
      assert [request][0] == request;
    }
  }

  lemma {:induction false} UntouchedUnvisited(
    repo: Repository, rs: seq<PullRequest>, createIfNotExists: bool, t: seq<Visited>, i: nat, a: Alias)
    requires RepoOk(repo) && IsTrace(repo, rs, createIfNotExists, t) && i <= |rs|
    requires forall k | 0 <= k < i :: !Touches(repo, rs[k], createIfNotExists, a)
    ensures a !in t[i]
  {
    if i == 0 {
    } else {
      UntouchedUnvisited(repo, rs, createIfNotExists, t, i - 1, a);
      assert TraceAt(repo, rs[i - 1], createIfNotExists, t[i - 1], t[i]);
      if a in t[i] {
        NewIsTouched(repo, rs[i - 1], createIfNotExists, t[i - 1], t[i], a);
      }
    }
  }

  /** In every list, failing requests or not, a remote is used if no earlier request leads to its
      dataset or needs it. */
  lemma UntouchedRemoteHonoured(
    repo: Repository, rs: seq<PullRequest>, createIfNotExists: bool, t: seq<Visited>, i: nat, a: Alias)
    requires RepoOk(repo) && IsTrace(repo, rs, createIfNotExists, t) && i < |rs|
    requires rs[i].remoteRef.Some? && LeadsTo(repo, rs[i], createIfNotExists, a)
    requires forall k | 0 <= k < i :: !Touches(repo, rs[k], createIfNotExists, a)
    ensures a in t[|rs|] && t[|rs|][a].remoteRef == rs[i].remoteRef
  {
    UntouchedUnvisited(repo, rs, createIfNotExists, t, i, a);
    assert TraceAt(repo, rs[i], createIfNotExists, t[i], t[i + 1]);
    RemoteVisitsTarget(repo, rs[i], createIfNotExists, t[i], t[i + 1], a);
    FirstVisitDecides(repo, rs, createIfNotExists, t, i, a);
  }

  /******* A remote that is ignored *******/

  /** A remote that a request names is used exactly if the dataset was not visited before, or was
      visited for the same remote. */
  lemma RemoteUsedIff(
    repo: Repository, request: PullRequest, createIfNotExists: bool, v: Visited, r: Result<int, PullError>, w: Visited)
    requires RepoOk(repo) && request.remoteRef.Some? && Resolve(repo, request, createIfNotExists).Ok?
    requires Outcome(repo, request, true, createIfNotExists, v, r, w)
    ensures var a := Resolve(repo, request, createIfNotExists).value.alias;
      && a in w
      && (w[a].remoteRef == request.remoteRef <==> a !in v || v[a].remoteRef == request.remoteRef)
  {
  }

  lemma OthersKept(
    repo: Repository, request: PullRequest, createIfNotExists: bool, v: Visited, r: Result<int, PullError>,
    w: Visited, a: Alias)
    requires RepoOk(repo) && WellFormed(request) && Outcome(repo, request, true, createIfNotExists, v, r, w)
    requires a in v && !LeadsTo(repo, request, createIfNotExists, a)
    ensures a in w && w[a] == v[a]
  {
  }

  const TWO_DATASETS := Repository(
    map["A" := "a", "B" := "b"], map["a" := "A", "b" := "B"], map["A" := [], "B" := ["A"]],
    map["A" := [], "B" := []], map[], map[])

  lemma TwoDatasets()
    ensures RepoOk(TWO_DATASETS) && Acyclic(LocalGraph(TWO_DATASETS)) && !LeadsToBad(TWO_DATASETS, "B")
  {
    var g := LocalGraph(TWO_DATASETS);
    assert g == map["A" := [], "B" := ["A"]];
    assert ClosedUnderEdges(g, {"A"}) && ClosedUnderEdges(g, {"A", "B"});
    forall x, y | Edge(g, x, y)
      ensures !Reaches(g, y, x)
    {
      if Reaches(g, y, x) {
        ClosedHoldsReachable(g, {"A"}, y, x);
      }
    }
    forall n | Reaches(g, "B", n)
      ensures !Bad(TWO_DATASETS, n)
    {
      ClosedHoldsReachable(g, {"A", "B"}, "B", n);
    }
  }

  const BY_NAME := PullRequest(Some(ByAlias("b")), None)
  const FROM_REMOTE := PullRequest(Some(ByAlias("a")), Some("r"))

  lemma Targets()
    ensures Resolve(TWO_DATASETS, BY_NAME, false) == Ok(Target("b", Some("B")))
    ensures Resolve(TWO_DATASETS, FROM_REMOTE, false) == Ok(Target("a", Some("A")))
  {
  }

  lemma BothVisited(r: Result<int, PullError>, v: Visited)
    requires RepoOk(TWO_DATASETS) && !LeadsToBad(TWO_DATASETS, "B")
    requires Outcome(TWO_DATASETS, BY_NAME, true, false, map[], r, v)
    ensures "b" in v && v["b"].handle == Some("B") && v["b"].remoteRef == None
    ensures "a" in v ==> v["a"].remoteRef == None
  {
    Targets();
    var none: Visited := map[];
    if BadAhead(TWO_DATASETS, none.Keys, "B") {
      BadAheadLeads(TWO_DATASETS, none.Keys, "B");
    }
    if "a" in v {
      assert Registered(TWO_DATASETS, v["a"]);
    }
  }

  lemma ReachedAsDependency(r: Result<int, PullError>, v: Visited)
    requires RepoOk(TWO_DATASETS) && !LeadsToBad(TWO_DATASETS, "B")
    requires Outcome(TWO_DATASETS, BY_NAME, true, false, map[], r, v)
    ensures "a" in v && v["a"].remoteRef == None
  {
    BothVisited(r, v);
    assert ItemAt(TWO_DATASETS, v, "b");
    assert Has(TWO_DATASETS, v, TWO_DATASETS.dependencies["B"][0]);
  }

  /** A dataset that is requested from a remote after it was reached as a dependency is not
      pulled from there. */
  lemma RemoteRequestedLast(
      r: Result<int, PullError>, v: Visited, s: Result<int, PullError>, w: Visited)
    requires RepoOk(TWO_DATASETS)
    requires Outcome(TWO_DATASETS, BY_NAME, true, false, map[], r, v)
    requires Outcome(TWO_DATASETS, FROM_REMOTE, true, false, v, s, w)
    ensures "a" in w && w["a"].remoteRef == None
  {
    TwoDatasets();
    Targets();
    ReachedAsDependency(r, v);
    RemoteUsedIff(TWO_DATASETS, FROM_REMOTE, false, v, s, w);
  }

  /** The same two requests in the other order: plans depend on the order of requests as soon
      as one of them names a remote. */
  lemma RemoteRequestedFirst(
      r: Result<int, PullError>, v: Visited, s: Result<int, PullError>, w: Visited)
    requires RepoOk(TWO_DATASETS)
    requires Outcome(TWO_DATASETS, FROM_REMOTE, true, false, map[], r, v)
    requires Outcome(TWO_DATASETS, BY_NAME, true, false, v, s, w)
    ensures "a" in w && w["a"].remoteRef == Some("r")
  {
    Targets();
    RemoteUsedIff(TWO_DATASETS, FROM_REMOTE, false, map[], r, v);
    OthersKept(TWO_DATASETS, BY_NAME, false, v, s, w, "a");
  }
}
