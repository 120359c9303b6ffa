/** Carrying out a pull plan: batches of independent items, one after the other. */
module PullBatches {
  import opened Wrappers
  import opened Graphs
  import opened Search
  import opened PullModel
  import opened PullOrder
  import Sorting
  import opened PullService

  datatype Execution = Succeeded(report: string) | Failure(reason: string)

  datatype Service = Ingest | Sync | Transform

  /** The service that a batch on the level of the item is handed to. */
  function ServiceFor(item: PullItem): Service {
    if item.depth == 0 && item.remoteRef.None? then Ingest
    else if item.depth == 0 then Sync
    else Transform
  }

  /** What the services report for an item. */
  type Executor = (Service, PullItem) -> Execution

  datatype PullResult = Executed(execution: Execution) | Refused(error: PullError)

  datatype PullResponse = PullResponse(
    originalRequest: Option<PullRequest>,
    alias: Option<Alias>,
    remoteRef: Option<RemoteRef>,
    result: PullResult)

  function Response(item: PullItem, execute: Executor): PullResponse {
    PullResponse(item.originalRequest, Some(item.alias), item.remoteRef, Executed(execute(ServiceFor(item), item)))
  }

  function Responses(items: seq<PullItem>, execute: Executor): (r: seq<PullResponse>)
    ensures |r| == |items| && forall i | 0 <= i < |r| :: r[i] == Response(items[i], execute)
  {
    seq(|items|, i requires 0 <= i < |items| => Response(items[i], execute))
  }

  /******* Batches *******/

  /** The items may run side by side. */
  predicate SameLevel(x: PullItem, y: PullItem) {
    x.depth == y.depth && x.remoteRef.Some? == y.remoteRef.Some?
  }

  /** Number of leading items on the level of the given one. */
  function LevelCount(first: PullItem, items: seq<PullItem>): (n: nat)
    ensures n <= |items|
    ensures forall i | 0 <= i < n :: SameLevel(items[i], first)
    ensures n < |items| ==> !SameLevel(items[n], first)
  {
    if items == [] || !SameLevel(items[0], first) then 0
    else
      var n := LevelCount(first, items[1..]);
      assert forall i | 1 <= i < n + 1 :: items[i] == items[1..][i - 1];
      assert n + 1 < |items| ==> items[n + 1] == items[1..][n];
      n + 1
  }

  ghost predicate OneLevel(batch: seq<PullItem>) {
    batch != [] && forall i | 0 <= i < |batch| :: SameLevel(batch[i], batch[0])
  }

  predicate AllSucceed(batch: seq<PullItem>, execute: Executor) {
    forall i | 0 <= i < |batch| :: execute(ServiceFor(batch[i]), batch[i]).Succeeded?
  }

  predicate Failed(response: PullResponse) {
    response.result.Executed? && response.result.execution.Failure?
  }

  /** The responses to the items of batch k. */
  function ResponsesOf(responses: seq<PullResponse>, batches: seq<seq<PullItem>>, k: nat): seq<PullResponse>
    requires k < |batches| && |responses| == |Joined(batches)|
  {
    JoinedPrefix(batches, k);
    JoinedPrefix(batches, k + 1);
    JoinedAt(batches, k);
    responses[|Joined(batches[..k])|..|Joined(batches[..k + 1])|]
  }

  ghost predicate HoldsFailure(responses: seq<PullResponse>) {
    exists j | 0 <= j < |responses| :: Failed(responses[j])
  }

  /** Neighbouring batches are on different levels. */
  ghost predicate LevelsDiffer(batches: seq<seq<PullItem>>) {
    forall k | 0 <= k < |batches| - 1 && batches[k] != [] && batches[k + 1] != [] ::
      !SameLevel(batches[k + 1][0], batches[k][0])
  }

  /** The batches run: leading parts of the plan, each with all neighbours on one level, each but
      the last without failures; the whole plan unless the last one failed. */
  ghost predicate RanInOrder(plan: seq<PullItem>, batches: seq<seq<PullItem>>, execute: Executor) {
    && Joined(batches) <= plan
    && (forall k | 0 <= k < |batches| :: OneLevel(batches[k])) && LevelsDiffer(batches)
    && (forall k | 0 <= k < |batches| - 1 :: AllSucceed(batches[k], execute))
    && (Joined(batches) == plan || (batches != [] && !AllSucceed(batches[|batches| - 1], execute)))
  }

  lemma {:induction false} JoinedAppend<T>(batches: seq<seq<T>>, batch: seq<T>)
    ensures Joined(batches + [batch]) == Joined(batches) + batch
  {
    assert (batches + [batch])[..|batches|] == batches;
  }

  /** The items on the level of the first one, and the rest. */
  function Slice(items: seq<PullItem>): (r: (seq<PullItem>, seq<PullItem>))
    requires items != []
    ensures r.0 + r.1 == items && OneLevel(r.0)
    ensures r.1 != [] ==> !SameLevel(r.1[0], r.0[0])
  {
    var n := LevelCount(items[0], items);
    (items[..n], items[n..])
  }

  lemma ResponsesConcat(a: seq<PullItem>, b: seq<PullItem>, execute: Executor)
    ensures Responses(a + b, execute) == Responses(a, execute) + Responses(b, execute)
  {
  }

  /** Some batches have run without failures and the rest of the plan is still to come. */
  ghost predicate Running(plan: seq<PullItem>, batches: seq<seq<PullItem>>, rest: seq<PullItem>, execute: Executor) {
    && Joined(batches) + rest == plan
    && (forall k | 0 <= k < |batches| :: OneLevel(batches[k]) && AllSucceed(batches[k], execute))
    && LevelsDiffer(batches)
    && (batches != [] && rest != [] ==> !SameLevel(rest[0], batches[|batches| - 1][0]))
  }

  lemma RunningStep(
      plan: seq<PullItem>, batches: seq<seq<PullItem>>, batch: seq<PullItem>, rest: seq<PullItem>, execute: Executor)
    requires Running(plan, batches, batch + rest, execute) && OneLevel(batch)
    requires rest != [] ==> !SameLevel(rest[0], batch[0])
    ensures AllSucceed(batch, execute) ==> Running(plan, batches + [batch], rest, execute)
    ensures !AllSucceed(batch, execute) ==> RanInOrder(plan, batches + [batch], execute)
  {
    JoinedAppend(batches, batch);
    assert Joined(batches) + (batch + rest) == Joined(batches) + batch + rest;
  }

  /** The response is for the item: a level above the first is transformed, and on the first level
      items with a remote are synced and the others ingested. */
  predicate IsFor(response: PullResponse, item: PullItem, execute: Executor) {
    && response.originalRequest == item.originalRequest && response.alias == Some(item.alias)
    && response.remoteRef == item.remoteRef && response.result.Executed?
    && (item.depth != 0 ==> response.result.execution == execute(Transform, item))
    && (item.depth == 0 && item.remoteRef.Some? ==> response.result.execution == execute(Sync, item))
    && (item.depth == 0 && item.remoteRef.None? ==> response.result.execution == execute(Ingest, item))
  }

  ghost predicate AllFor(responses: seq<PullResponse>, items: seq<PullItem>, execute: Executor) {
    |responses| == |items| && forall j | 0 <= j < |items| :: IsFor(responses[j], items[j], execute)
  }

  lemma ResponsesFor(items: seq<PullItem>, execute: Executor)
    ensures AllFor(Responses(items, execute), items, execute)
  {
  }

  /** Takes the next batch off the rest of the plan. */
  lemma NextBatch(
      plan: seq<PullItem>, batches: seq<seq<PullItem>>, rest: seq<PullItem>, execute: Executor)
    requires Running(plan, batches, rest, execute) && rest != []
    ensures var (batch, later) := Slice(rest);
      && Responses(Joined(batches + [batch]), execute) ==
           Responses(Joined(batches), execute) + Responses(batch, execute)
      && (AllSucceed(batch, execute) ==> Running(plan, batches + [batch], later, execute))
      && (!AllSucceed(batch, execute) ==> RanInOrder(plan, batches + [batch], execute))
  {
    var (batch, later) := Slice(rest);
    ResponsesConcat(Joined(batches), batch, execute);
    JoinedAppend(batches, batch);
    RunningStep(plan, batches, batch, later, execute);
  }

  method RunBatches(
      plan: seq<PullItem>, execute: Executor) returns (results: seq<PullResponse>, ghost batches: seq<seq<PullItem>>)
    ensures RanInOrder(plan, batches, execute) && results == Responses(Joined(batches), execute)
    ensures AllFor(results, Joined(batches), execute)
    ensures plan != [] ==> results != []
  {
    results, batches := [], [];
    var rest := plan;
    while rest != []
      invariant Running(plan, batches, rest, execute)
      invariant results == Responses(Joined(batches), execute)
      invariant rest == plan || results != []
      decreases |rest|
    {
      var slice := Slice(rest);
      NextBatch(plan, batches, rest, execute);
      ResponsesFor(Joined(batches + [slice.0]), execute);
      results := results + Responses(slice.0, execute);
      batches := batches + [slice.0];
      rest := slice.1;
      if !AllSucceed(slice.0, execute) {
        return;
      }
    }
    assert Joined(batches) + rest == Joined(batches);
    ResponsesFor(Joined(batches), execute);
  }

  /******* What the batches guarantee *******/

  lemma {:induction false} InSomeBatch<T>(batches: seq<seq<T>>, x: T) returns (k: nat)
    requires x in Joined(batches)
    ensures k < |batches| && x in batches[k]
  {
    var n := |batches| - 1;
    if x in batches[n] {
      k := n;
    } else {
      k := InSomeBatch(batches[..n], x);
    }
  }

  lemma {:induction false} JoinedPrefix<T>(batches: seq<seq<T>>, k: nat)
    requires k <= |batches|
    ensures Joined(batches[..k]) <= Joined(batches)
    decreases |batches| - k
  {
    if k == |batches| {
      assert batches[..k] == batches;
    } else {
      JoinedPrefix(batches, k + 1);
      assert batches[..k + 1] == batches[..k] + [batches[k]];
      JoinedAppend(batches[..k], batches[k]);
    }
  }

  /** In a sorted plan what stands between two items of one level is on that level too. */
  lemma LevelBetween(plan: seq<PullItem>, i: nat, k: nat, j: nat)
    requires Sorting.Sorted(plan, ItemLe) && i <= k <= j < |plan| && SameLevel(plan[i], plan[j])
    ensures SameLevel(plan[k], plan[i])
  {
    if i < k < j {
      assert ItemLe(plan[i], plan[k]) && ItemLe(plan[k], plan[j]);
    }
  }

  /** So each level is one batch: items on the same level run side by side. */
  lemma OneBatchPerLevel(
      plan: seq<PullItem>, batches: seq<seq<PullItem>>, execute: Executor, j: nat, k: nat, x: PullItem, y: PullItem)
    requires Sorting.Sorted(plan, ItemLe) && RanInOrder(plan, batches, execute)
    requires j < k < |batches| && x in batches[j] && y in batches[k]
    ensures !SameLevel(x, y)
  {
    assert OneLevel(batches[j]) && OneLevel(batches[k]) && OneLevel(batches[j + 1]);
    var first := |Joined(batches[..j + 1])|;
    BatchStart(plan, batches, j + 1);
    var p := PlaceInBatch(plan, batches, j, x);
    var q := PlaceInBatch(plan, batches, k, y);
    JoinedPrefixes(batches, j + 1, k);
    LevelsEqual(batches[j], x, batches[j][0]);
    assert !SameLevel(batches[j + 1][0], batches[j][0]);
    if SameLevel(x, y) {
      LevelBetween(plan, p, first, q);
    }
  }

  lemma {:induction false} JoinedPrefixes<T>(batches: seq<seq<T>>, i: nat, k: nat)
    requires i <= k <= |batches|
    ensures |Joined(batches[..i])| <= |Joined(batches[..k])|
    decreases k - i
  {
    if i == k {
    } else {
      JoinedAt(batches, i);
      JoinedPrefixes(batches, i + 1, k);
    }
  }

  /** The first item of a batch in the plan. */
  lemma BatchStart(plan: seq<PullItem>, batches: seq<seq<PullItem>>, k: nat)
    requires Joined(batches) <= plan && k < |batches| && batches[k] != []
    ensures |Joined(batches[..k])| < |plan| && plan[|Joined(batches[..k])|] == batches[k][0]
  {
    JoinedSlice(batches, k);
    JoinedAt(batches, k);
  }

  lemma PlaceInBatch(plan: seq<PullItem>, batches: seq<seq<PullItem>>, k: nat, x: PullItem) returns (p: nat)
    requires Joined(batches) <= plan && k < |batches| && x in batches[k]
    ensures |Joined(batches[..k])| <= p < |Joined(batches[..k + 1])| <= |plan| && plan[p] == x
  {
    JoinedSlice(batches, k);
    JoinedAt(batches, k);
    var i :| 0 <= i < |batches[k]| && batches[k][i] == x;
    p := |Joined(batches[..k])| + i;
  }

  /** Items of one batch do not wait for each other. */
  lemma BatchIndependent(
      repo: Repository, v: Visited, batch: seq<PullItem>, x: PullItem, y: PullItem)
    requires RepoOk(repo) && Consistent(repo, v) && OneLevel(batch) && x in batch && y in batch
    requires x.alias in v && v[x.alias] == x && y.alias in v && v[y.alias] == y
    ensures !Edge(PlanGraph(repo, v), x.alias, y.alias)
  {
    LevelsEqual(batch, x, y);
    if Edge(PlanGraph(repo, v), x.alias, y.alias) {
      DependencyShallower(repo, v, x.alias, y.alias);
    }
  }

  /** Where in the plan the items of a batch stand. */
  lemma PlaceInPlan(
      plan: seq<PullItem>, batches: seq<seq<PullItem>>, k: nat, x: PullItem) returns (p: nat)
    requires Joined(batches) <= plan && k < |batches| && x in batches[k]
    ensures Joined(batches[..k + 1]) <= plan && p < |Joined(batches[..k + 1])| && plan[p] == x
  {
    JoinedPrefix(batches, k + 1);
    assert batches[..k + 1] == batches[..k] + [batches[k]];
    JoinedAppend(batches[..k], batches[k]);
    var i :| 0 <= i < |batches[k]| && batches[k][i] == x;
    p := |Joined(batches[..k])| + i;
  }

  /** In a sorted plan a shallower item has run in an earlier batch. */
  lemma ShallowerRanBefore(
      plan: seq<PullItem>, batches: seq<seq<PullItem>>, execute: Executor, k: nat, x: PullItem, y: PullItem)
    returns (m: nat)
    requires Sorting.Sorted(plan, ItemLe) && RanInOrder(plan, batches, execute)
    requires k < |batches| && x in batches[k] && y in plan && y.depth < x.depth
    ensures m < k && y in batches[m]
  {
    var p := PlaceInPlan(plan, batches, k, x);
    var q :| 0 <= q < |plan| && plan[q] == y;
    assert q < p;
    assert Joined(batches[..k + 1])[q] == y;
    BatchDepth(batches[k], x);
    m := InSomeBatch(batches[..k + 1], y);
    assert batches[..k + 1][m] == batches[m];
  }

  lemma BatchDepth(batch: seq<PullItem>, x: PullItem)
    requires OneLevel(batch) && x in batch
    ensures forall y | y in batch :: y.depth == x.depth
  {
    forall y | y in batch
      ensures y.depth == x.depth
    {
      LevelsEqual(batch, x, y);
    }
  }

  lemma LevelsEqual(batch: seq<PullItem>, x: PullItem, y: PullItem)
    requires OneLevel(batch) && x in batch && y in batch
    ensures SameLevel(x, y)
  {
    var i :| 0 <= i < |batch| && batch[i] == x;
    var j :| 0 <= j < |batch| && batch[j] == y;
    assert SameLevel(batch[i], batch[0]) && SameLevel(batch[j], batch[0]);
  }

  lemma JoinedAt<T>(batches: seq<seq<T>>, k: nat)
    requires k < |batches|
    ensures Joined(batches[..k + 1]) == Joined(batches[..k]) + batches[k]
  {
    assert batches[..k + 1] == batches[..k] + [batches[k]];
    JoinedAppend(batches[..k], batches[k]);
  }

  /** The response is for the item, and holds what the right service made of it: synced if it has a
      remote, transformed if it waits for something, and otherwise ingested. */
  ghost predicate Answers(repo: Repository, v: Visited, response: PullResponse, item: PullItem, execute: Executor)
    requires RepoOk(repo) && Consistent(repo, v) && item.alias in v
  {
    && response.originalRequest == item.originalRequest && response.alias == Some(item.alias)
    && response.remoteRef == item.remoteRef
    && (item.remoteRef.Some? ==> response.result == Executed(execute(Sync, item)))
    && (PlanGraph(repo, v)[item.alias] != [] ==> response.result == Executed(execute(Transform, item)))
    && (item.remoteRef.None? && PlanGraph(repo, v)[item.alias] == [] ==>
          response.result == Executed(execute(Ingest, item)))
  }

  ghost predicate AllVisited(v: Visited, items: seq<PullItem>) {
    forall i | 0 <= i < |items| :: items[i].alias in v && v[items[i].alias] == items[i]
  }

  /** The responses are for the items that ran, in order.  Batches run as long as no response holds
      a failure, and the run stops with the first batch that has one, or with the plan. */
  ghost predicate Answered(
    repo: Repository, v: Visited, plan: seq<PullItem>, batches: seq<seq<PullItem>>, responses: seq<PullResponse>,
    execute: Executor)
    requires RepoOk(repo) && Consistent(repo, v)
  {
    var items := Joined(batches);
    && |responses| == |items| && items <= plan
    && (forall j | 0 <= j < |items| ::
          items[j].alias in v && Answers(repo, v, responses[j], items[j], execute))
    && (forall k | 0 <= k < |batches| - 1 :: !HoldsFailure(ResponsesOf(responses, batches, k)))
    && (items == plan || (batches != [] && HoldsFailure(ResponsesOf(responses, batches, |batches| - 1))))
  }

  /** When the whole plan is carried out, everything that an item waits for has run before, in
      a batch without failures. */
  lemma DependenciesRanBefore(
    repo: Repository, v: Visited, plan: seq<PullItem>, batches: seq<seq<PullItem>>, execute: Executor, k: nat,
    x: PullItem, b: Alias)
    returns (m: nat)
    requires RepoOk(repo) && Consistent(repo, v) && IsPlan(v, plan) && RanInOrder(plan, batches, execute)
    requires k < |batches| && x in batches[k] && Edge(PlanGraph(repo, v), x.alias, b)
    ensures b in v && m < k && v[b] in batches[m] && AllSucceed(batches[m], execute)
  {
    RanItem(v, plan, batches, execute, k, x);
    DependencyShallower(repo, v, x.alias, b);
    m := ShallowerRanBefore(plan, batches, execute, k, x, v[b]);
  }

  lemma RanItem(
      v: Visited, plan: seq<PullItem>, batches: seq<seq<PullItem>>, execute: Executor, k: nat, x: PullItem)
    requires IsPlan(v, plan) && RanInOrder(plan, batches, execute) && k < |batches| && x in batches[k]
    ensures x.alias in v && v[x.alias] == x
  {
    var p := PlaceInPlan(plan, batches, k, x);
  }

  /** Items with a remote are synced, items that depend on others transformed, the rest ingested. */
  lemma ServiceMatches(repo: Repository, v: Visited, a: Alias)
    requires RepoOk(repo) && Consistent(repo, v) && a in v
    ensures ServiceFor(v[a]).Sync? <==> v[a].remoteRef.Some?
    ensures ServiceFor(v[a]).Transform? <==> PlanGraph(repo, v)[a] != []
  {
    assert ItemAt(repo, v, a);
    if PlanGraph(repo, v)[a] != [] {
      DependencyShallower(repo, v, a, PlanGraph(repo, v)[a][0]);
    }
  }

  lemma ResponseAnswers(repo: Repository, v: Visited, item: PullItem, execute: Executor)
    requires RepoOk(repo) && Consistent(repo, v) && item.alias in v && v[item.alias] == item
    ensures Answers(repo, v, Response(item, execute), item, execute)
  {
    ServiceMatches(repo, v, item.alias);
  }

  lemma BatchResponses(batches: seq<seq<PullItem>>, k: nat, responses: seq<PullResponse>, execute: Executor)
    requires k < |batches| && responses == Responses(Joined(batches), execute)
    ensures ResponsesOf(responses, batches, k) == Responses(batches[k], execute)
  {
    JoinedSlice(batches, k);
    ResponsesSlice(Joined(batches), |Joined(batches[..k])|, |Joined(batches[..k + 1])|, execute);
  }

  lemma ResponsesSlice(items: seq<PullItem>, i: nat, j: nat, execute: Executor)
    requires i <= j <= |items|
    ensures Responses(items, execute)[i..j] == Responses(items[i..j], execute)
  {
  }

  /** Where a batch stands among all items that ran. */
  lemma JoinedSlice<T>(batches: seq<seq<T>>, k: nat)
    requires k < |batches|
    ensures var i, j := |Joined(batches[..k])|, |Joined(batches[..k + 1])|;
      i <= j <= |Joined(batches)| && Joined(batches)[i..j] == batches[k]
  {
    JoinedAt(batches, k);
    JoinedPrefix(batches, k + 1);
    PrefixSlice(Joined(batches[..k]), batches[k], Joined(batches));
  }

  lemma PrefixSlice<T>(a: seq<T>, b: seq<T>, c: seq<T>)
    requires a + b <= c
    ensures c[|a|..|a + b|] == b
  {
    assert c[..|a + b|] == a + b;
    assert c[|a|..|a + b|] == c[..|a + b|][|a|..];
  }

  lemma FailureIff(batch: seq<PullItem>, execute: Executor)
    ensures HoldsFailure(Responses(batch, execute)) <==> !AllSucceed(batch, execute)
  {
    if !AllSucceed(batch, execute) {
      var j :| 0 <= j < |batch| && !execute(ServiceFor(batch[j]), batch[j]).Succeeded?;
      assert Failed(Responses(batch, execute)[j]);
    }
  }

  /** A batch failed exactly if a response to one of its items holds a failure. */
  lemma BatchFailedIff(batches: seq<seq<PullItem>>, k: nat, responses: seq<PullResponse>, execute: Executor)
    requires k < |batches| && responses == Responses(Joined(batches), execute)
    ensures HoldsFailure(ResponsesOf(responses, batches, k)) <==> !AllSucceed(batches[k], execute)
  {
    BatchResponses(batches, k, responses, execute);
    FailureIff(batches[k], execute);
  }

  /** What is known of the responses when batches ran in order on a part of a plan. */
  lemma RunAnswered(
    repo: Repository, v: Visited, plan: seq<PullItem>, batches: seq<seq<PullItem>>, responses: seq<PullResponse>,
    execute: Executor)
    requires RepoOk(repo) && Consistent(repo, v) && RanInOrder(plan, batches, execute)
    requires responses == Responses(Joined(batches), execute)
    requires AllVisited(v, plan)
    ensures Answered(repo, v, plan, batches, responses, execute)
  {
    var items := Joined(batches);
    forall j | 0 <= j < |items|
      ensures items[j].alias in v && Answers(repo, v, responses[j], items[j], execute)
    {
      assert items[j] == plan[j];
      ResponseAnswers(repo, v, items[j], execute);
    }
    forall k | 0 <= k < |batches|
      ensures HoldsFailure(ResponsesOf(responses, batches, k)) <==> !AllSucceed(batches[k], execute)
    {
      BatchFailedIff(batches, k, responses, execute);
    }
  }

  /******* Pulling *******/

  datatype PullOptions = PullOptions(recursive: bool, createIfNotExists: bool)

  /** Only items that were requested, in the same order. */
  function Retained(plan: seq<PullItem>): seq<PullItem> {
    if plan == [] then []
    else
      var n := |plan| - 1;
      if plan[n].originalRequest.Some? then Retained(plan[..n]) + [plan[n]] else Retained(plan[..n])
  }

  lemma {:induction false} RetainedMembers(plan: seq<PullItem>, x: PullItem)
    ensures x in Retained(plan) <==> x in plan && x.originalRequest.Some?
  {
    if plan == [] {
    } else {
      var n := |plan| - 1;
      assert plan == plan[..n] + [plan[n]];
      RetainedMembers(plan[..n], x);
    }
  }

  lemma OrderedSnoc(kept: seq<PullItem>, x: PullItem)
    requires Sorting.Sorted(kept, ItemLe) && DistinctAliases(kept)
    requires forall i | 0 <= i < |kept| :: ItemLe(kept[i], x) && kept[i].alias != x.alias
    ensures Sorting.Sorted(kept + [x], ItemLe) && DistinctAliases(kept + [x])
  {
  }

  lemma RetainedBelow(plan: seq<PullItem>, n: nat, y: PullItem)
    requires Sorting.Sorted(plan, ItemLe) && DistinctAliases(plan) && n < |plan| && y in Retained(plan[..n])
    ensures ItemLe(y, plan[n]) && y.alias != plan[n].alias
  {
    RetainedMembers(plan[..n], y);
    var j :| 0 <= j < n && plan[..n][j] == y;
    assert plan[j] == y;
  }

  lemma {:induction false} RetainedOrder(plan: seq<PullItem>)
    requires Sorting.Sorted(plan, ItemLe) && DistinctAliases(plan)
    ensures Sorting.Sorted(Retained(plan), ItemLe) && DistinctAliases(Retained(plan))
  {
    if plan == [] {
    } else {
      var n := |plan| - 1;
      var kept := Retained(plan[..n]);
      RetainedOrder(plan[..n]);
      forall i | 0 <= i < |kept|
        ensures ItemLe(kept[i], plan[n]) && kept[i].alias != plan[n].alias
      {
        RetainedBelow(plan, n, kept[i]);
      }
      OrderedSnoc(kept, plan[n]);
    }
  }

  lemma {:induction false} RetainedItems(plan: seq<PullItem>)
    requires Sorting.Sorted(plan, ItemLe) && DistinctAliases(plan)
    ensures forall x :: x in Retained(plan) <==> x in plan && x.originalRequest.Some?
    ensures Sorting.Sorted(Retained(plan), ItemLe) && DistinctAliases(Retained(plan))
  {
    RetainedOrder(plan);
    forall x
      ensures x in Retained(plan) <==> x in plan && x.originalRequest.Some?
    {
      RetainedMembers(plan, x);
    }
  }

  function Refusals(errors: seq<RequestError>): (r: seq<PullResponse>)
    ensures |r| == |errors|
    ensures forall i | 0 <= i < |r| ::
      r[i] == PullResponse(Some(errors[i].request), None, None, Refused(errors[i].error))
  {
    seq(|errors|, i requires 0 <= i < |errors| =>
      PullResponse(Some(errors[i].request), None, None, Refused(errors[i].error)))
  }

  /** The part of the plan that is carried out. */
  function Chosen(plan: seq<PullItem>, options: PullOptions): seq<PullItem> {
    if options.recursive then plan else Retained(plan)
  }

  lemma ChosenVisited(v: Visited, plan: seq<PullItem>, options: PullOptions)
    requires IsPlan(v, plan)
    ensures AllVisited(v, Chosen(plan, options))
  {
    var chosen := Chosen(plan, options);
    if !options.recursive {
      forall i | 0 <= i < |chosen|
        ensures chosen[i].alias in v && v[chosen[i].alias] == chosen[i]
      {
        RetainedMembers(plan, chosen[i]);
        assert chosen[i] in chosen;
      }
    }
  }

  /** What holds of the plan for the requests. */
  ghost predicate Planned(
    repo: Repository, requests: seq<PullRequest>, createIfNotExists: bool, v: Visited, plan: seq<PullItem>,
    errors: seq<RequestError>)
    requires RepoOk(repo)
  {
    && IsPlan(v, plan) && Progress(repo, requests, createIfNotExists, v, errors)
    && (NamesNoRemote(requests) ==> LocalProgress(repo, requests, v, errors))
    && Traced(repo, requests, createIfNotExists, v, errors)
  }

  /** If some request cannot be planned, nothing is run; otherwise the chosen part of the plan. */
  method PullMulti(repo: Repository, requests: seq<PullRequest>, options: PullOptions, execute: Executor)
    returns (responses: seq<PullResponse>, ghost v: Visited, ghost plan: seq<PullItem>,
      ghost errors: seq<RequestError>, ghost batches: seq<seq<PullItem>>)
    requires RepoOk(repo) && Acyclic(LocalGraph(repo)) && AllWellFormed(requests)
    ensures Planned(repo, requests, options.createIfNotExists, v, plan, errors)
    ensures errors != [] ==> batches == [] && responses == Refusals(errors)
    ensures errors == [] ==>
      && RanInOrder(Chosen(plan, options), batches, execute)
      && Answered(repo, v, Chosen(plan, options), batches, responses, execute)
    ensures errors == [] && options.recursive ==> RanInOrder(plan, batches, execute)
    ensures errors == [] && !options.recursive ==>
      forall x | x in Joined(batches) :: x in plan && x.originalRequest.Some?
    ensures !options.recursive && |requests| == 1 ==> |responses| == 1
  {
    var collected, failed, visited := CollectPullGraph(repo, requests, options.createIfNotExists);
    v, plan, errors, batches := visited, collected, failed, [];
    if failed != [] {
      responses := Refusals(failed);
      return;
    }
    if !options.recursive {
      collected := Retained(collected);
    }
    responses, batches := RunBatches(collected, execute);
    assert collected == Chosen(plan, options);
    ChosenVisited(v, plan, options);
    RunAnswered(repo, v, collected, batches, responses, execute);
    forall x | x in Joined(batches)
      ensures x in collected && (!options.recursive ==> x in plan && x.originalRequest.Some?)
    {
      RetainedMembers(plan, x);
    }
    if !options.recursive && |requests| == 1 {
      assert requests == [requests[0]];
      assert Served(repo, requests[0], options.createIfNotExists, v);
      OneRetained(repo, requests[0], options.createIfNotExists, v, plan);
    }
  }

  lemma OneName(kept: seq<PullItem>, a: Alias)
    requires forall i | 0 <= i < |kept| :: kept[i].alias == a
    ensures DistinctAliases(kept) ==> |kept| <= 1
  {
    if |kept| >= 2 {
      assert kept[0].alias == kept[1].alias;
    }
  }

  lemma {:induction false} OneRetained(
      repo: Repository, request: PullRequest, createIfNotExists: bool, v: Visited, plan: seq<PullItem>)
    requires IsPlan(v, plan) && NotedRightly(repo, [request], createIfNotExists, v)
    requires Served(repo, request, createIfNotExists, v)
    ensures |Retained(plan)| == 1
  {
    RetainedItems(plan);
    var kept := Retained(plan);
    var a :| a in v && LeadsTo(repo, request, createIfNotExists, a) && v[a].originalRequest.Some?;
    assert v[a] in kept;
    forall i | 0 <= i < |kept|
      ensures kept[i].alias == a
    {
      assert kept[i] in kept;
      assert kept[i] in plan;
    }
    OneName(kept, a);
  }

  /** What was executed for the one request. */
  ghost predicate ExecutedFor(
      repo: Repository, request: PullRequest, createIfNotExists: bool, result: PullResult, item: PullItem,
      execute: Executor) {
    && LeadsTo(repo, request, createIfNotExists, item.alias) && item.originalRequest == Some(request)
    && (request.remoteRef.Some? ==> item.remoteRef == request.remoteRef)
    && (item.remoteRef.Some? ==> result == Executed(execute(Sync, item)))
    && (item.remoteRef.None? ==>
          result == Executed(execute(Ingest, item)) || result == Executed(execute(Transform, item)))
  }

  lemma OneItem(repo: Repository, request: PullRequest, createIfNotExists: bool, v: Visited, item: PullItem)
    requires RepoOk(repo) && Traced(repo, [request], createIfNotExists, v, [])
    requires NotedRightly(repo, [request], createIfNotExists, v)
    requires item.alias in v && v[item.alias] == item && item.originalRequest.Some?
    ensures LeadsTo(repo, request, createIfNotExists, item.alias) && item.originalRequest == Some(request)
    ensures request.remoteRef.Some? ==> item.remoteRef == request.remoteRef
  {
    assert item.originalRequest.value in [request];
    var t :| IsTrace(repo, [request], createIfNotExists, t) && t[1] == v;
    assert TraceAt(repo, [request][0], createIfNotExists, t[0], t[1]);
  }

  lemma OneExecuted(
    repo: Repository, request: PullRequest, createIfNotExists: bool, v: Visited, plan: seq<PullItem>,
    batches: seq<seq<PullItem>>, responses: seq<PullResponse>, execute: Executor)
    requires RepoOk(repo) && Planned(repo, [request], createIfNotExists, v, plan, [])
    requires Answered(repo, v, Retained(plan), batches, responses, execute) && |responses| == 1
    ensures exists item :: ExecutedFor(repo, request, createIfNotExists, responses[0].result, item, execute)
  {
    var item := Joined(batches)[0];
    assert item == Retained(plan)[0] && Answers(repo, v, responses[0], item, execute);
    RetainedMembers(plan, item);
    OneItem(repo, request, createIfNotExists, v, item);
    assert ExecutedFor(repo, request, createIfNotExists, responses[0].result, item, execute);
  }

  lemma OneRefused(
    repo: Repository, request: PullRequest, createIfNotExists: bool, v: Visited, plan: seq<PullItem>,
    errors: seq<RequestError>)
    requires RepoOk(repo) && Planned(repo, [request], createIfNotExists, v, plan, errors)
    ensures request.remoteRef.None? ==> (errors != [] <==> Fails(repo, request))
  {
    FailingStep(repo, [], request);
    assert [] + [request] == [request];
  }

  /** Pulling one dataset without its dependencies gets exactly one response, the result. */
  method PullOne(
      repo: Repository, request: PullRequest, createIfNotExists: bool, execute: Executor) returns (result: PullResult)
    requires RepoOk(repo) && Acyclic(LocalGraph(repo)) && WellFormed(request)
    ensures request.remoteRef.None? ==> (result.Refused? <==> Fails(repo, request))
    ensures result.Executed? ==> exists item :: ExecutedFor(repo, request, createIfNotExists, result, item, execute)
  {
    var responses;
    ghost var v, plan, errors, batches;
    responses, v, plan, errors, batches := PullMulti(repo, [request], PullOptions(false, createIfNotExists), execute);
    result := responses[0].result;
    OneRefused(repo, request, createIfNotExists, v, plan, errors);
    if errors == [] {
      OneExecuted(repo, request, createIfNotExists, v, plan, batches, responses, execute);
    }
  }
}
