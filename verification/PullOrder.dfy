/** The order of a pull plan, and what makes the plan independent of the order of requests. */
module PullOrder {
  import opened Wrappers
  import opened Odf
  import opened Graphs
  import opened PullModel
  import Sorting

  /******* The order on items *******/

  predicate TextLe(a: string, b: string) {
    a == [] || (b != [] && (a[0] < b[0] || (a[0] == b[0] && TextLe(a[1..], b[1..]))))
  }

  lemma {:induction false} TextTotal(a: string, b: string)
    ensures TextLe(a, b) || TextLe(b, a)
    ensures TextLe(a, b) && TextLe(b, a) ==> a == b
  {
    if a != [] && b != [] {
      TextTotal(a[1..], b[1..]);
      assert a == [a[0]] + a[1..] && b == [b[0]] + b[1..];
    }
  }

  lemma {:induction false} TextTransitive(a: string, b: string, c: string)
    requires TextLe(a, b) && TextLe(b, c)
    ensures TextLe(a, c)
  {
    if a != [] && a[0] == b[0] == c[0] {
      TextTransitive(a[1..], b[1..], c[1..]);
    }
  }

  /** Of two texts the one that is a beginning of the other comes first, and else the one with the
      smaller character where they first differ. */
  lemma {:induction false} TextLeMeans(a: string, b: string)
    ensures TextLe(a, b) <==> a <= b || exists k: nat :: k < |a| && k < |b| && a[..k] == b[..k] && a[k] < b[k]
  {
    if a == [] || b == [] {
    } else if a[0] == b[0] {
      TextLeMeans(a[1..], b[1..]);
      assert a == [a[0]] + a[1..] && b == [b[0]] + b[1..];
      if k: nat :| k < |a[1..]| && k < |b[1..]| && a[1..][..k] == b[1..][..k] && a[1..][k] < b[1..][k] {
        assert a[..k + 1] == [a[0]] + a[1..][..k] && b[..k + 1] == [b[0]] + b[1..][..k];
        assert a[..k + 1] == b[..k + 1] && a[k + 1] < b[k + 1];
      }
      if k: nat :| k < |a| && k < |b| && a[..k] == b[..k] && a[k] < b[k] {
        assert k > 0;
        assert a[1..][..k - 1] == a[..k][1..] && b[1..][..k - 1] == b[..k][1..];
        assert a[1..][..k - 1] == b[1..][..k - 1] && a[1..][k - 1] < b[1..][k - 1];
      }
    } else {
      assert a[..0] == b[..0];
      if k: nat :| k < |a| && k < |b| && a[..k] == b[..k] && a[k] < b[k] {
        assert k > 0 ==> a[..k][0] == b[..k][0];
      }
    }
  }

  /** By depth, then synced before other items, then by name. */
  predicate ItemLe(x: PullItem, y: PullItem) {
    if x.depth != y.depth then x.depth < y.depth
    else if x.remoteRef.Some? != y.remoteRef.Some? then x.remoteRef.Some?
    else TextLe(x.alias, y.alias)
  }

  lemma ItemLeTotal()
    ensures Sorting.TotalOrder(ItemLe)
  {
    forall x, y
      ensures ItemLe(x, y) || ItemLe(y, x)
    {
      TextTotal(x.alias, y.alias);
    }
    forall x, y, z | ItemLe(x, y) && ItemLe(y, z)
      ensures ItemLe(x, z)
    {
      if TextLe(x.alias, y.alias) && TextLe(y.alias, z.alias) {
        TextTransitive(x.alias, y.alias, z.alias);
      }
    }
  }

  /** The plan lists exactly the visited items, in order. */
  ghost predicate IsPlan(v: Visited, plan: seq<PullItem>) {
    && Sorting.Sorted(plan, ItemLe)
    && (forall i | 0 <= i < |plan| :: plan[i].alias in v && v[plan[i].alias] == plan[i])
    && (forall i, j | 0 <= i < j < |plan| :: plan[i].alias != plan[j].alias)
    && (forall a | a in v :: v[a] in plan)
  }

  /** In a plan shallower items come first, then synced ones, then the smaller names. */
  lemma PlanOrdered(v: Visited, plan: seq<PullItem>, i: nat, j: nat)
    requires IsPlan(v, plan) && i < j < |plan|
    ensures var x, y := plan[i], plan[j];
      && x.depth <= y.depth
      && (x.depth == y.depth && y.remoteRef.Some? ==> x.remoteRef.Some?)
      && (x.depth == y.depth && (x.remoteRef.Some? <==> y.remoteRef.Some?) ==> TextLe(x.alias, y.alias))
  {
    assert ItemLe(plan[i], plan[j]);
  }

  ghost predicate DistinctAliases(s: seq<PullItem>) {
    forall i, j | 0 <= i < j < |s| :: s[i].alias != s[j].alias
  }

  /** The values of the map, in whatever order the map gives them. */
  method Values(v: Visited) returns (s: seq<PullItem>)
    requires forall a | a in v :: v[a].alias == a
    ensures DistinctAliases(s)
    ensures forall x :: x in s <==> x.alias in v && v[x.alias] == x
  {
    s := [];
    var rest := v.Keys;
    while rest != {}
      invariant rest <= v.Keys
      invariant DistinctAliases(s)
      invariant forall x :: x in s <==> x.alias in v && v[x.alias] == x && x.alias !in rest
      decreases rest
    {
      var a :| a in rest;
      s := s + [v[a]];
      rest := rest - {a};
    }
  }

  lemma {:induction false} AliasCount(s: seq<PullItem>, x: PullItem)
    requires DistinctAliases(s)
    ensures multiset(s)[x] <= 1
  {
    if s == [] {
    } else {
      var n := |s| - 1;
      assert s == s[..n] + [s[n]];
      AliasCount(s[..n], x);
      if s[n] == x {
        assert x !in s[..n];
      }
    }
  }

  lemma CountedTwice(s: seq<PullItem>, i: nat, j: nat)
    requires i < j < |s| && s[i] == s[j]
    ensures multiset(s)[s[i]] >= 2
  {
    assert s == s[..i] + [s[i]] + s[i + 1..j] + [s[j]] + s[j + 1..];
  }

  lemma CountDistinct(s: seq<PullItem>)
    requires forall x :: multiset(s)[x] <= 1
    requires forall x, y | x in s && y in s && x.alias == y.alias :: x == y
    ensures DistinctAliases(s)
  {
    forall i, j | 0 <= i < j < |s|
      ensures s[i].alias != s[j].alias
    {
      if s[i] == s[j] {
        CountedTwice(s, i, j);
      }
    }
  }

  /** Sorting the values of the map gives a plan. */
  method SortedValues(v: Visited) returns (plan: seq<PullItem>)
    requires forall a | a in v :: v[a].alias == a
    ensures IsPlan(v, plan)
  {
    var values := Values(v);
    plan := Sorting.Sort(values, ItemLe);
    ItemLeTotal();
    Sorting.SortCorrect(values, ItemLe);
    SamePlanElements(v, values, plan);
  }

  lemma SamePlanElements(v: Visited, values: seq<PullItem>, plan: seq<PullItem>)
    requires multiset(values) == multiset(plan) && DistinctAliases(values) && Sorting.Sorted(plan, ItemLe)
    requires forall x :: x in values <==> x.alias in v && v[x.alias] == x
    requires forall a | a in v :: v[a].alias == a
    ensures IsPlan(v, plan)
  {
    forall x
      ensures x in plan <==> x in values
      ensures multiset(plan)[x] <= 1
    {
      assert x in multiset(plan) <==> x in multiset(values);
      AliasCount(values, x);
    }
    CountDistinct(plan);
  }

  /******* Depth is the length of the longest chain of dependencies *******/

  function DependencyAliases(repo: Repository, deps: seq<DatasetId>): (r: seq<Alias>)
    requires forall i | 0 <= i < |deps| :: deps[i] in repo.aliases
    ensures |r| == |deps| && forall i | 0 <= i < |r| :: r[i] == repo.aliases[deps[i]]
  {
    seq(|deps|, i requires 0 <= i < |deps| => repo.aliases[deps[i]])
  }

  ghost function WaitsFor(repo: Repository, v: Visited, a: Alias): seq<Alias>
    requires RepoOk(repo) && Consistent(repo, v) && a in v
  {
    assert ItemAt(repo, v, a);
    if v[a].remoteRef.Some? then [] else DependencyAliases(repo, repo.dependencies[v[a].handle.value])
  }

  /** What the items of a plan wait for: nothing if synced from a remote. */
  ghost function PlanGraph(repo: Repository, v: Visited): Graph<Alias>
    requires RepoOk(repo) && Consistent(repo, v)
  {
    map a | a in v :: WaitsFor(repo, v, a)
  }

  /** Every dependency is in the plan, and strictly shallower. */
  lemma DependencyShallower(repo: Repository, v: Visited, a: Alias, b: Alias)
    requires RepoOk(repo) && Consistent(repo, v) && Edge(PlanGraph(repo, v), a, b)
    ensures b in v && 0 <= v[b].depth < v[a].depth
  {
    assert ItemAt(repo, v, a);
    var deps := repo.dependencies[v[a].handle.value];
    var i :| 0 <= i < |deps| && DependencyAliases(repo, deps)[i] == b;
    assert Has(repo, v, deps[i]) && ItemAt(repo, v, b);
  }

  lemma DeepestDependency(repo: Repository, v: Visited, a: Alias) returns (b: Alias)
    requires RepoOk(repo) && Consistent(repo, v) && a in v && v[a].depth > 0
    ensures Edge(PlanGraph(repo, v), a, b) && b in v && v[b].depth == v[a].depth - 1
  {
    assert ItemAt(repo, v, a);
    var deps := repo.dependencies[v[a].handle.value];
    var i :| 0 <= i < |deps| && Has(repo, v, deps[i]) && DepthOf(repo, v, deps[i]) == v[a].depth - 1;
    b := repo.aliases[deps[i]];
    assert DependencyAliases(repo, deps)[i] == b;
  }

  function Depths(v: Visited): map<Alias, int> {
    map a | a in v :: v[a].depth
  }

  lemma PlanLayered(repo: Repository, v: Visited)
    requires RepoOk(repo) && Consistent(repo, v)
    ensures Layered(PlanGraph(repo, v), Depths(v))
  {
    var g, depth := PlanGraph(repo, v), Depths(v);
    forall a | a in depth
      ensures depth[a] >= 0
    {
      assert ItemAt(repo, v, a);
    }
    forall a, b | a in depth && Edge(g, a, b)
      ensures b in depth && depth[b] < depth[a]
    {
      DependencyShallower(repo, v, a, b);
    }
    forall a | a in depth && depth[a] > 0
      ensures StepsDown(g, depth, a)
    {
      var b := DeepestDependency(repo, v, a);
    }
  }

  /** The depth of an item is the length of the longest chain of dependencies below it. */
  lemma DepthIsLongestWalk(repo: Repository, v: Visited, a: Alias, d: nat)
    requires RepoOk(repo) && Consistent(repo, v) && a in v
    ensures d == v[a].depth <==> Walk(PlanGraph(repo, v), a, d) && !Walk(PlanGraph(repo, v), a, d + 1)
  {
    PlanLayered(repo, v);
    LayeredLongest(PlanGraph(repo, v), Depths(v), a, d);
  }

  /******* Plans of requests that name no remote *******/

  ghost predicate AllRegistered(repo: Repository, v: Visited)
    requires RepoOk(repo)
  {
    forall a {:trigger Registered(repo, v[a])} | a in v :: Registered(repo, v[a])
  }

  ghost function VisitedIds(repo: Repository, v: Visited): set<DatasetId> {
    set id | id in repo.aliases.Keys && repo.aliases[id] in v
  }

  /** What the repository makes depend on what is all visited. */
  lemma VisitedClosed(repo: Repository, v: Visited)
    requires RepoOk(repo) && Consistent(repo, v) && AllRegistered(repo, v)
    ensures ClosedUnderEdges(LocalGraph(repo), VisitedIds(repo, v))
  {
    forall x, y | x in VisitedIds(repo, v) && Edge(LocalGraph(repo), x, y)
      ensures y in VisitedIds(repo, v)
    {
      var item := v[repo.aliases[x]];
      assert Registered(repo, item) && ItemAt(repo, v, repo.aliases[x]);
      var deps := repo.dependencies[x];
      var i :| 0 <= i < |deps| && deps[i] == y;
      assert Has(repo, v, deps[i]);
    }
  }

  lemma VisitedIsGood(repo: Repository, v: Visited, id: DatasetId)
    requires RepoOk(repo) && Consistent(repo, v) && AllRegistered(repo, v) && Has(repo, v, id)
    ensures !LeadsToBad(repo, id)
  {
    VisitedClosed(repo, v);
    forall n | Reaches(LocalGraph(repo), id, n)
      ensures !Bad(repo, n)
    {
      ClosedHoldsReachable(LocalGraph(repo), VisitedIds(repo, v), id, n);
      assert Registered(repo, v[repo.aliases[n]]) && ItemAt(repo, v, repo.aliases[n]);
    }
  }

  /** Two maps agree on everything but which of several equivalent requests is remembered. */
  ghost predicate SameItems(v: Visited, w: Visited) {
    && v.Keys == w.Keys
    && forall a | a in v ::
      && v[a].(originalRequest := None) == w[a].(originalRequest := None)
      && (v[a].originalRequest.Some? <==> w[a].originalRequest.Some?)
  }

  ghost function RepositoryDepths(repo: Repository, v: Visited): map<DatasetId, int> {
    map id | id in VisitedIds(repo, v) :: v[repo.aliases[id]].depth
  }

  lemma RepositoryLayered(repo: Repository, v: Visited)
    requires RepoOk(repo) && Consistent(repo, v) && AllRegistered(repo, v)
    ensures Layered(LocalGraph(repo), RepositoryDepths(repo, v))
  {
    var g, depth := LocalGraph(repo), RepositoryDepths(repo, v);
    VisitedClosed(repo, v);
    forall x | x in depth
      ensures depth[x] >= 0
      ensures forall y | Edge(g, x, y) :: y in depth && depth[y] < depth[x]
      ensures depth[x] > 0 ==> StepsDown(g, depth, x)
    {
      RepositoryStep(repo, v, x);
    }
  }

  lemma RepositoryStep(repo: Repository, v: Visited, x: DatasetId)
    requires RepoOk(repo) && Consistent(repo, v) && AllRegistered(repo, v) && Has(repo, v, x)
    ensures var depth := RepositoryDepths(repo, v);
      && depth[x] >= 0
      && (forall y | Edge(LocalGraph(repo), x, y) :: y in depth && depth[y] < depth[x])
      && (depth[x] > 0 ==> StepsDown(LocalGraph(repo), depth, x))
  {
    var g, depth, item, deps := LocalGraph(repo), RepositoryDepths(repo, v), v[repo.aliases[x]], repo.dependencies[x];
    assert Registered(repo, item) && ItemAt(repo, v, repo.aliases[x]);
    forall y | Edge(g, x, y)
      ensures y in depth && depth[y] < depth[x]
    {
      var i :| 0 <= i < |deps| && deps[i] == y;
      assert Has(repo, v, deps[i]);
    }
    if depth[x] > 0 {
      var i :| 0 <= i < |deps| && Has(repo, v, deps[i]) && DepthOf(repo, v, deps[i]) == item.depth - 1;
      assert Edge(g, x, deps[i]) && deps[i] in depth;
    }
  }

  /** If no request names a remote, the depth of a dataset is the length of its longest path
      through the repository, where datasets with a registered source are roots. */
  lemma DepthInRepository(repo: Repository, v: Visited, id: DatasetId, d: nat)
    requires RepoOk(repo) && Consistent(repo, v) && AllRegistered(repo, v) && Has(repo, v, id)
    ensures d == DepthOf(repo, v, id) <==> Walk(LocalGraph(repo), id, d) && !Walk(LocalGraph(repo), id, d + 1)
  {
    RepositoryLayered(repo, v);
    LayeredLongest(LocalGraph(repo), RepositoryDepths(repo, v), id, d);
  }

  /** The items are determined by the repository. */
  lemma ItemDetermined(repo: Repository, v: Visited, w: Visited, a: Alias)
    requires RepoOk(repo) && Consistent(repo, v) && Consistent(repo, w)
    requires AllRegistered(repo, v) && AllRegistered(repo, w) && a in v && a in w
    ensures v[a].(originalRequest := None) == w[a].(originalRequest := None)
  {
    assert Registered(repo, v[a]) && Registered(repo, w[a]);
    assert ItemAt(repo, v, a) && ItemAt(repo, w, a);
    var id := repo.ids[a];
    DepthInRepository(repo, v, id, v[a].depth);
    DepthInRepository(repo, w, id, v[a].depth);
  }
}
