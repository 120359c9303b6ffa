/** The upstream lineage of a dataset, walked depth first and drawn as a DOT graph. */
module Lineage {
  import opened Wrappers
  import opened Odf
  import opened Graphs

  datatype Summary = Summary(kind: DatasetKind, dependencies: seq<DatasetId>)

  /** The handles that references resolve to, and the datasets that are stored locally. */
  datatype Repository = Repository(aliases: map<DatasetId, string>, datasets: map<DatasetId, Summary>)

  datatype Style = RootStyle | DerivativeStyle | RemoteStyle

  datatype Line = NodeLine(alias: string, style: Style) | ArrowLine(from: string, to: string)

  datatype Input = Input(id: DatasetId, alias: string)

  datatype NodeInfo =
    | Local(id: DatasetId, alias: string, kind: DatasetKind, dependencies: seq<Input>)
    | Remote(id: DatasetId, alias: string)

  datatype LineageError = NotFound(id: DatasetId)

  /** The dependencies of every dataset that can be resolved; a dataset that is not stored
      locally is a leaf. */
  function DependencyGraph(repo: Repository): (g: Graph<DatasetId>)
    ensures g.Keys == repo.aliases.Keys
  {
    map id | id in repo.aliases :: if id in repo.datasets then repo.datasets[id].dependencies else []
  }

  predicate AllResolve(repo: Repository, ids: seq<DatasetId>) {
    forall i | 0 <= i < |ids| :: ids[i] in repo.aliases
  }

  function ResolvedInputs(repo: Repository, ids: seq<DatasetId>): (r: seq<Input>)
    requires AllResolve(repo, ids)
    ensures |r| == |ids|
  {
    seq(|ids|, i requires 0 <= i < |ids| => Input(ids[i], repo.aliases[ids[i]]))
  }

  predicate Describable(repo: Repository, id: DatasetId) {
    id in repo.aliases && (id in repo.datasets ==> AllResolve(repo, repo.datasets[id].dependencies))
  }

  function InfoOf(repo: Repository, id: DatasetId): (r: NodeInfo)
    requires Describable(repo, id)
    ensures r.id == id
  {
    if id in repo.datasets then
      Local(id, repo.aliases[id], repo.datasets[id].kind, ResolvedInputs(repo, repo.datasets[id].dependencies))
    else Remote(id, repo.aliases[id])
  }

  /******* The drawing *******/

  function Arrows(inputs: seq<Input>, to: string): (r: seq<Line>)
    ensures |r| == |inputs|
    ensures forall i | 0 <= i < |r| :: r[i] == ArrowLine(inputs[i].alias, to)
  {
    seq(|inputs|, i requires 0 <= i < |inputs| => ArrowLine(inputs[i].alias, to))
  }

  /** One node, and one arrow for each of its dependencies. */
  function Drawn(info: NodeInfo): seq<Line> {
    match info
    case Local(_, alias, kind, dependencies) =>
      [NodeLine(alias, if kind.Root? then RootStyle else DerivativeStyle)] + Arrows(dependencies, alias)
    case Remote(_, alias) => [NodeLine(alias, RemoteStyle)]
  }

  /** The lines draw a node: itself first, in the style of its kind, and then an arrow from each of
      its dependencies to it, in order. */
  ghost predicate DrawsNode(info: NodeInfo, lines: seq<Line>) {
    match info
    case Remote(_, alias) => lines == [NodeLine(alias, RemoteStyle)]
    case Local(_, alias, kind, dependencies) =>
      && |lines| == 1 + |dependencies|
      && (kind == Root ==> lines[0] == NodeLine(alias, RootStyle))
      && (kind == Derivative ==> lines[0] == NodeLine(alias, DerivativeStyle))
      && forall j | 0 <= j < |dependencies| ::
           lines[j + 1].ArrowLine? && lines[j + 1].from == dependencies[j].alias && lines[j + 1].to == alias
  }

  /** The line belongs to the drawing of the dataset: its node, or an arrow from a dependency. */
  ghost predicate Draws(repo: Repository, id: DatasetId, line: Line)
    requires Describable(repo, id)
  {
    var alias := repo.aliases[id];
    || (id !in repo.datasets && line == NodeLine(alias, RemoteStyle))
    || (id in repo.datasets && repo.datasets[id].kind == Root && line == NodeLine(alias, RootStyle))
    || (id in repo.datasets && repo.datasets[id].kind == Derivative && line == NodeLine(alias, DerivativeStyle))
    || (id in repo.datasets && exists d | d in repo.datasets[id].dependencies ::
          line == ArrowLine(repo.aliases[d], alias))
  }

  /** The lines drawn for a dataset are exactly those that belong to it. */
  lemma DrawnLines(repo: Repository, id: DatasetId, line: Line)
    requires Describable(repo, id)
    ensures line in Drawn(InfoOf(repo, id)) <==> Draws(repo, id, line)
  {
    var lines := Drawn(InfoOf(repo, id));
    if id in repo.datasets {
      var deps, alias := repo.datasets[id].dependencies, repo.aliases[id];
      if line in lines && line != lines[0] {
        var j :| 0 < j < |lines| && lines[j] == line;
        assert deps[j - 1] in deps && line == ArrowLine(repo.aliases[deps[j - 1]], alias);
      }
      if d :| d in deps && line == ArrowLine(repo.aliases[d], alias) {
        var j :| 0 <= j < |deps| && deps[j] == d;
        assert lines[j + 1] == line;
      } else if Draws(repo, id, line) {
        assert lines[0] == line;
      }
    }
  }

  /** The line belongs to the drawing of one of the datasets. */
  ghost predicate DrawnFor(repo: Repository, ids: seq<DatasetId>, line: Line)
    requires AllDescribable(repo, ids)
  {
    exists i | 0 <= i < |ids| :: Draws(repo, ids[i], line)
  }

  lemma DrawnForSnoc(repo: Repository, ids: seq<DatasetId>, id: DatasetId, line: Line)
    requires AllDescribable(repo, ids) && Describable(repo, id)
    ensures AllDescribable(repo, ids + [id])
    ensures DrawnFor(repo, ids + [id], line) <==> DrawnFor(repo, ids, line) || Draws(repo, id, line)
  {
    var all := ids + [id];
    assert AllDescribable(repo, all) && all[|ids|] == id;
    if DrawnFor(repo, ids, line) {
      var i :| 0 <= i < |ids| && Draws(repo, ids[i], line);
      assert all[i] == ids[i];
    }
    if DrawnFor(repo, all, line) {
      var i :| 0 <= i < |all| && Draws(repo, all[i], line);
      assert i < |ids| ==> all[i] == ids[i];
    }
  }

  lemma {:induction false} DrawingLines(repo: Repository, ids: seq<DatasetId>, line: Line)
    requires AllDescribable(repo, ids)
    ensures line in Drawing(repo, ids) <==> DrawnFor(repo, ids, line)
  {
    if ids == [] {
    } else {
      var n := |ids| - 1;
      DrawingLines(repo, ids[..n], line);
      DrawnLines(repo, ids[n], line);
      DrawnForSnoc(repo, ids[..n], ids[n], line);
      assert ids == ids[..n] + [ids[n]];
    }
  }

  lemma DrawnIsNode(info: NodeInfo)
    ensures DrawsNode(info, Drawn(info))
  {
  }

  ghost predicate AllDescribable(repo: Repository, ids: seq<DatasetId>) {
    forall i | 0 <= i < |ids| :: Describable(repo, ids[i])
  }

  /** The drawing of several datasets, one after the other. */
  ghost function Drawing(repo: Repository, ids: seq<DatasetId>): seq<Line>
    requires AllDescribable(repo, ids)
  {
    if ids == [] then [] else Drawing(repo, ids[..|ids| - 1]) + Drawn(InfoOf(repo, ids[|ids| - 1]))
  }

  lemma {:induction false} DrawingStep(repo: Repository, ids: seq<DatasetId>, id: DatasetId)
    requires AllDescribable(repo, ids) && Describable(repo, id)
    ensures AllDescribable(repo, ids + [id])
    ensures Drawing(repo, ids + [id]) == Drawing(repo, ids) + Drawn(InfoOf(repo, id))
  {
    assert (ids + [id])[..|ids|] == ids;
  }

  method DrawArrows(inputs: seq<Input>, to: string) returns (lines: seq<Line>)
    ensures lines == Arrows(inputs, to)
  {
    lines := [];
    var i := 0;
    while i < |inputs|
      invariant 0 <= i <= |inputs| && |lines| == i
      invariant forall j | 0 <= j < i :: lines[j] == ArrowLine(inputs[j].alias, to)
    {
      lines := lines + [ArrowLine(inputs[i].alias, to)];
      i := i + 1;
    }
  }

  class DotVisitor {
    var visited: set<DatasetId>
    var output: seq<Line>
    ghost var entered: seq<DatasetId>

    /** What was drawn is the drawing of the datasets entered, each of them once. */
    ghost predicate Valid(repo: Repository)
      reads this
    {
      && Distinct(entered) && Elements(entered) == visited
      && AllDescribable(repo, entered) && output == Drawing(repo, entered)
    }

    constructor ()
      ensures visited == {} && output == [] && entered == []
    {
      visited, output, entered := {}, [], [];
    }

    method Enter(info: NodeInfo) returns (isNew: bool)
      modifies this
      ensures isNew <==> info.id !in old(visited)
      ensures visited == old(visited) + {info.id}
      ensures output == old(output) + if isNew then Drawn(info) else []
      ensures isNew ==> DrawsNode(info, output[|old(output)|..])
      ensures entered == old(entered) + if isNew then [info.id] else []
    {
      if info.id in visited {
        return false;
      }
      DrawnIsNode(info);
      visited := visited + {info.id};
      entered := entered + [info.id];
      if info.Local? {
        var arrows := DrawArrows(info.dependencies, info.alias);
        output := output + ([NodeLine(info.alias, if info.kind.Root? then RootStyle else DerivativeStyle)] + arrows);
      } else {
        output := output + [NodeLine(info.alias, RemoteStyle)];
      }
      assert output[|old(output)|..] == Drawn(info);
      isNew := true;
    }
  }

  method ResolveInputs(repo: Repository, ids: seq<DatasetId>) returns (r: Result<seq<Input>, LineageError>)
    ensures r.Ok? <==> AllResolve(repo, ids)
    ensures r.Ok? ==> r.value == ResolvedInputs(repo, ids)
    ensures r.Err? ==> r.error.id in ids && r.error.id !in repo.aliases
  {
    var inputs := [];
    var i := 0;
    while i < |ids|
      invariant 0 <= i <= |ids|
      invariant AllResolve(repo, ids[..i]) && inputs == ResolvedInputs(repo, ids[..i])
    {
      if ids[i] !in repo.aliases {
        return Err(NotFound(ids[i]));
      }
      inputs := inputs + [Input(ids[i], repo.aliases[ids[i]])];
      assert ids[..i + 1] == ids[..i] + [ids[i]];
      i := i + 1;
    }
    assert ids[..i] == ids;
    r := Ok(inputs);
  }

  /******* The walk *******/

  /** Some dataset that u leads to cannot be resolved. */
  ghost predicate LeadsAstray(g: Graph<DatasetId>, u: DatasetId) {
    exists n :: Reaches(g, u, n) && n !in g
  }

  ghost predicate Found(g: Graph<DatasetId>, u: DatasetId, n: DatasetId) {
    n in g && Reaches(g, u, n)
  }

  ghost predicate InputsIn(g: Graph<DatasetId>, n: DatasetId, visited: set<DatasetId>) {
    forall m | Edge(g, n, m) :: m in visited
  }

  /** The datasets added between two stages of the walk from u: they are reached from u, and
      so are their dependencies, all of them visited. */
  ghost predicate Explored(g: Graph<DatasetId>, u: DatasetId, before: set<DatasetId>, after: set<DatasetId>) {
    && before <= after
    && (forall n {:trigger Found(g, u, n)} | n in after - before :: Found(g, u, n))
    && forall n {:trigger InputsIn(g, n, after)} | n in after - before :: InputsIn(g, n, after)
  }

  /** As Explored, for a dataset u just entered whose dependencies are not all visited yet. */
  ghost predicate Exploring(g: Graph<DatasetId>, u: DatasetId, before: set<DatasetId>, after: set<DatasetId>) {
    && before + {u} <= after
    && (forall n {:trigger Found(g, u, n)} | n in after - before :: Found(g, u, n))
    && forall n {:trigger InputsIn(g, n, after)} | n in after - before - {u} :: InputsIn(g, n, after)
  }

  lemma ExploreInput(
      g: Graph<DatasetId>, u: DatasetId, v: DatasetId, before: set<DatasetId>, now: set<DatasetId>,
      after: set<DatasetId>)
    requires Edge(g, u, v) && Exploring(g, u, before, now) && Explored(g, v, now, after)
    ensures Exploring(g, u, before, after)
  {
    ReachesEdge(g, u, v);
    forall n | n in after - before
      ensures Found(g, u, n)
    {
      if n !in now {
        assert Found(g, v, n);
        ReachesTransitive(g, u, v, n);
      }
    }
    forall n | n in after - before - {u}
      ensures InputsIn(g, n, after)
    {
      assert InputsIn(g, n, now) || InputsIn(g, n, after);
    }
  }

  lemma AstrayThrough(g: Graph<DatasetId>, u: DatasetId, v: DatasetId)
    requires Edge(g, u, v) && LeadsAstray(g, v)
    ensures LeadsAstray(g, u)
  {
    var n :| Reaches(g, v, n) && n !in g;
    ReachesEdge(g, u, v);
    ReachesTransitive(g, u, v, n);
  }

  lemma JustEntered(g: Graph<DatasetId>, u: DatasetId, before: set<DatasetId>)
    requires u in g && u !in before
    ensures Exploring(g, u, before, before + {u})
  {
    ReachesSelf(g, u);
  }

  lemma DoneExploring(
      g: Graph<DatasetId>, u: DatasetId, before: set<DatasetId>, after: set<DatasetId>)
    requires Exploring(g, u, before, after) && InputsIn(g, u, after)
    ensures Explored(g, u, before, after)
  {
  }

  lemma InputEdge(repo: Repository, u: DatasetId, i: nat)
    requires Describable(repo, u) && u in repo.datasets && i < |repo.datasets[u].dependencies|
    ensures var v := ResolvedInputs(repo, repo.datasets[u].dependencies)[i].id;
      v in repo.aliases && Edge(DependencyGraph(repo), u, v)
  {
  }

  /** Visits one input of a dataset that is being explored. */
  method VisitInput(repo: Repository, u: DatasetId, v: DatasetId, visitor: DotVisitor, ghost before: set<DatasetId>)
    returns (r: Result<(), LineageError>)
    requires visitor.Valid(repo) && v in repo.aliases && Edge(DependencyGraph(repo), u, v)
    requires Exploring(DependencyGraph(repo), u, before, visitor.visited)
    modifies visitor
    ensures visitor.Valid(repo) && old(visitor.visited) <= visitor.visited
    ensures r.Ok? ==> v in visitor.visited && Exploring(DependencyGraph(repo), u, before, visitor.visited)
    ensures r.Err? ==> LeadsAstray(DependencyGraph(repo), u)
    decreases repo.aliases.Keys - visitor.visited, 2
  {
    ghost var now := visitor.visited;
    r := Visit(repo, v, visitor);
    if r.Ok? {
      ExploreInput(DependencyGraph(repo), u, v, before, now, visitor.visited);
    } else {
      AstrayThrough(DependencyGraph(repo), u, v);
    }
  }

  /** Visits all inputs of a dataset that has just been entered. */
  method VisitInputs(
      repo: Repository, u: DatasetId, inputs: seq<Input>, visitor: DotVisitor, ghost before: set<DatasetId>)
    returns (r: Result<(), LineageError>)
    requires visitor.Valid(repo) && Describable(repo, u) && u in repo.datasets
    requires inputs == ResolvedInputs(repo, repo.datasets[u].dependencies)
    requires u !in before && visitor.visited == before + {u}
    modifies visitor
    ensures visitor.Valid(repo)
    ensures r.Ok? ==> Explored(DependencyGraph(repo), u, before, visitor.visited)
    ensures r.Err? ==> LeadsAstray(DependencyGraph(repo), u)
    ensures old(visitor.visited) <= visitor.visited
    decreases repo.aliases.Keys - visitor.visited, 3
  {
    ghost var g := DependencyGraph(repo);
    JustEntered(g, u, before);
    var i := 0;
    while i < |inputs|
      invariant 0 <= i <= |inputs|
      invariant visitor.Valid(repo) && Exploring(g, u, before, visitor.visited)
      invariant forall j | 0 <= j < i :: inputs[j].id in visitor.visited
    {
      InputEdge(repo, u, i);
      r := VisitInput(repo, u, inputs[i].id, visitor, before);
      if r.Err? {
        return;
      }
      i := i + 1;
    }
    AllInputsVisited(repo, u, visitor.visited);
    DoneExploring(g, u, before, visitor.visited);
    r := Ok(());
  }

  method Visit(repo: Repository, u: DatasetId, visitor: DotVisitor) returns (r: Result<(), LineageError>)
    requires u in repo.aliases && visitor.Valid(repo)
    modifies visitor
    ensures visitor.Valid(repo)
    ensures r.Ok? ==> u in visitor.visited && Explored(DependencyGraph(repo), u, old(visitor.visited), visitor.visited)
    ensures r.Err? ==> LeadsAstray(DependencyGraph(repo), u)
    ensures old(visitor.visited) <= visitor.visited
    decreases repo.aliases.Keys - visitor.visited, 1
  {
    ghost var before := visitor.visited;
    ReachesSelf(DependencyGraph(repo), u);
    if u in repo.datasets {
      var inputs := ResolveInputs(repo, repo.datasets[u].dependencies);
      if inputs.Err? {
        ReachesEdge(DependencyGraph(repo), u, inputs.error.id);
        return Err(inputs.error);
      }
      var isNew := EnterNode(repo, u, visitor);
      if isNew {
        r := VisitInputs(repo, u, inputs.value, visitor, before);
      } else {
        r := Ok(());
      }
    } else {
      var _ := EnterNode(repo, u, visitor);
      r := Ok(());
    }
  }

  lemma AllInputsVisited(repo: Repository, u: DatasetId, visited: set<DatasetId>)
    requires u in repo.datasets && Describable(repo, u)
    requires forall j | 0 <= j < |repo.datasets[u].dependencies| ::
      ResolvedInputs(repo, repo.datasets[u].dependencies)[j].id in visited
    ensures InputsIn(DependencyGraph(repo), u, visited)
  {
    var ids := repo.datasets[u].dependencies;
    forall m | Edge(DependencyGraph(repo), u, m)
      ensures m in visited
    {
      var j :| 0 <= j < |ids| && ids[j] == m;
      assert ResolvedInputs(repo, ids)[j].id == m;
    }
  }

  /** Entering a dataset draws it unless it was drawn before. */
  method EnterNode(repo: Repository, u: DatasetId, visitor: DotVisitor) returns (isNew: bool)
    requires Describable(repo, u) && visitor.Valid(repo)
    modifies visitor
    ensures visitor.Valid(repo)
    ensures isNew <==> u !in old(visitor.visited)
    ensures visitor.visited == old(visitor.visited) + {u}
  {
    ghost var entered := visitor.entered;
    if u !in visitor.visited {
      DrawingStep(repo, entered, u);
      assert u !in Elements(entered);
      DistinctSnoc(entered, u);
    }
    ghost var output := visitor.output;
    isNew := visitor.Enter(InfoOf(repo, u));
    assert !isNew ==> visitor.entered == entered && visitor.output == output;
  }

  /** The lineage of a dataset.  The walk ends on every finite graph, with or without cycles.  It
      succeeds exactly if everything upstream can be resolved, and then has drawn exactly the
      datasets upstream, each once, each with one arrow for each of its dependencies. */
  method GetDatasetLineage(
      repo: Repository, start: DatasetId) returns (r: Result<seq<Line>, LineageError>, ghost entered: seq<DatasetId>)
    ensures r.Ok? <==> !LeadsAstray(DependencyGraph(repo), start)
    ensures r.Ok? ==> Distinct(entered) && forall n :: n in entered <==> Reaches(DependencyGraph(repo), start, n)
    ensures r.Ok? ==>
      && AllDescribable(repo, entered) && r.value == Drawing(repo, entered)
      && forall line :: line in r.value <==> DrawnFor(repo, entered, line)
  {
    ghost var g := DependencyGraph(repo);
    entered := [];
    ReachesSelf(g, start);
    if start !in repo.aliases {
      r := Err(NotFound(start));
      return;
    }
    var visitor := new DotVisitor();
    var walked := Visit(repo, start, visitor);
    if walked.Err? {
      r := Err(walked.error);
      return;
    }
    entered := visitor.entered;
    r := Ok(visitor.output);
    ExploredAll(g, start, visitor.visited);
    forall line
      ensures line in r.value <==> DrawnFor(repo, entered, line)
    {
      DrawingLines(repo, entered, line);
    }
    forall n
      ensures n in entered <==> n in visitor.visited
    {
      assert n in entered <==> n in Elements(entered);
    }
  }

  lemma ExploredAll(g: Graph<DatasetId>, start: DatasetId, visited: set<DatasetId>)
    requires Explored(g, start, {}, visited) && start in visited
    ensures forall n :: n in visited <==> Reaches(g, start, n)
    ensures !LeadsAstray(g, start)
  {
    forall n, m | n in visited && Edge(g, n, m)
      ensures m in visited
    {
      assert n in visited - {} && InputsIn(g, n, visited);
    }
    forall n | n in visited
      ensures n in g && Reaches(g, start, n)
    {
      assert n in visited - {} && Found(g, start, n);
    }
    forall n | Reaches(g, start, n)
      ensures n in visited
    {
      ClosedHoldsReachable(g, visited, start, n);
    }
  }
}
