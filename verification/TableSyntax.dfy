/** The syntax of queries as far as table references go, and the tree of references and scopes. */
module TableSyntax {
  import opened TableScopes

  datatype Statement = QueryStatement(query: Query) | OtherStatement

  /** A query; without a WITH clause it has no definitions. */
  datatype Query = Query(recursive: bool, ctes: seq<Cte>, body: SetExpr)

  datatype Cte = Cte(alias: Ident, query: Query)

  datatype SetExpr =
    | Select(from: seq<TableWithJoins>)
    | SubQuery(query: Query)
    | SetOperation(left: SetExpr, right: SetExpr)
    | OtherBody

  datatype TableWithJoins = TableWithJoins(relation: TableFactor, joins: seq<TableFactor>)

  datatype TableFactor = Table(name: ObjectName) | Derived(subquery: Query) | OtherFactor

  /******* The references and scopes of a query *******/

  function TreeOf(q: Query): Tree
    decreases q
  {
    Scope(q.recursive, Aliases(q.ctes), CteTrees(q.ctes), BodyTrees(q.body))
  }

  function Aliases(ctes: seq<Cte>): (r: seq<Ident>)
    ensures |r| == |ctes| && forall i | 0 <= i < |r| :: r[i] == ctes[i].alias
  {
    seq(|ctes|, i requires 0 <= i < |ctes| => ctes[i].alias)
  }

  function CteTrees(ctes: seq<Cte>): seq<Tree>
    decreases ctes
  {
    if ctes == [] then [] else [TreeOf(ctes[0].query)] + CteTrees(ctes[1..])
  }

  function BodyTrees(e: SetExpr): seq<Tree>
    decreases e
  {
    match e
    case Select(from) => FromTrees(from)
    case SubQuery(query) => [TreeOf(query)]
    case SetOperation(left, right) => BodyTrees(left) + BodyTrees(right)
    case OtherBody => []
  }

  function FromTrees(from: seq<TableWithJoins>): seq<Tree>
    decreases from
  {
    if from == [] then [] else FactorTrees(from[0].relation) + JoinTrees(from[0].joins) + FromTrees(from[1..])
  }

  function JoinTrees(joins: seq<TableFactor>): seq<Tree>
    decreases joins
  {
    if joins == [] then [] else FactorTrees(joins[0]) + JoinTrees(joins[1..])
  }

  function FactorTrees(t: TableFactor): seq<Tree>
    decreases t
  {
    match t
    case Table(name) => [Ref(name)]
    case Derived(subquery) => [TreeOf(subquery)]
    case OtherFactor => []
  }
}
