/** Extraction of table references from the syntax tree of a query. */
module TableRefs {
  import opened Graphs
  import opened TableScopes
  import opened TableSyntax
  import opened TablePositions
  import opened TableTrees
  import opened TableExtraction

  /******* Extraction *******/

  /** The list that all levels of the recursion share. */
  class TableList {
    var names: seq<ObjectName>

    constructor ()
      ensures names == []
    {
      names := [];
    }

    method Push(name: ObjectName)
      modifies this
      ensures names == old(names) + [name]
    {
      names := names + [name];
    }

    /** Drops the references to an alias from the whole list. */
    method RemoveAlias(alias: Ident)
      modifies this
      ensures names == Without({alias}, old(names))
    {
      var kept: seq<ObjectName> := [];
      var i := 0;
      while i < |names|
        invariant 0 <= i <= |names| && names == old(names)
        invariant kept == Without({alias}, names[..i])
      {
        if |names[i]| != 1 || names[i][0] != alias {
          kept := kept + [names[i]];
        }
        assert names[..i + 1][..i] == names[..i];
        i := i + 1;
      }
      assert names[..i] == names;
      names := kept;
    }
  }

  lemma {:induction false} ExtractConcat(f: seq<Tree>, g: seq<Tree>, acc: seq<ObjectName>)
    ensures Extract(f + g, acc) == Extract(g, Extract(f, acc))
    decreases |f|
  {
    if f == [] {
      assert f + g == g;
    } else {
      assert (f + g)[1..] == f[1..] + g;
      ExtractConcat(f[1..], g, ExtractOne(f[0], acc));
    }
  }

  lemma {:induction false} ExtractSingle(t: Tree, acc: seq<ObjectName>)
    ensures Extract([t], acc) == ExtractOne(t, acc)
  {
    assert [t][1..] == [];
  }

  lemma {:induction false} AliasStep(ctes: seq<Cte>, i: nat, names: seq<ObjectName>)
    requires i < |ctes|
    ensures Without({ctes[i].alias}, Without(Elements(Aliases(ctes[..i])), names)) ==
      Without(Elements(Aliases(ctes[..i + 1])), names)
  {
    WithoutTwice({ctes[i].alias}, Elements(Aliases(ctes[..i])), names);
    assert Aliases(ctes[..i + 1]) == Aliases(ctes[..i]) + [ctes[i].alias];
    assert Elements(Aliases(ctes[..i + 1])) == {ctes[i].alias} + Elements(Aliases(ctes[..i]));
  }

  method RemoveAliases(ctes: seq<Cte>, tables: TableList)
    modifies tables
    ensures tables.names == Without(Elements(Aliases(ctes)), old(tables.names))
  {
    ghost var start := tables.names;
    var i := 0;
    WithoutNothing(start);
    assert Elements(Aliases(ctes[..0])) == {};
    while i < |ctes|
      invariant 0 <= i <= |ctes|
      invariant tables.names == Without(Elements(Aliases(ctes[..i])), start)
    {
      tables.RemoveAlias(ctes[i].alias);
      AliasStep(ctes, i, start);
      i := i + 1;
    }
    assert ctes[..i] == ctes;
  }

  method ExtractCtes(ctes: seq<Cte>, tables: TableList)
    modifies tables
    ensures tables.names == Extract(CteTrees(ctes), old(tables.names))
    decreases ctes
  {
    var i := 0;
    while i < |ctes|
      invariant 0 <= i <= |ctes|
      invariant Extract(CteTrees(ctes[i..]), tables.names) == Extract(CteTrees(ctes), old(tables.names))
    {
      ghost var before := tables.names;
      ExtractQuery(ctes[i].query, tables);
      assert CteTrees(ctes[i..]) == [TreeOf(ctes[i].query)] + CteTrees(ctes[i + 1..]) by {
        assert ctes[i..][1..] == ctes[i + 1..];
      }
      ExtractConcat([TreeOf(ctes[i].query)], CteTrees(ctes[i + 1..]), before);
      ExtractSingle(TreeOf(ctes[i].query), before);
      i := i + 1;
    }
  }

  method ExtractQuery(query: Query, tables: TableList)
    modifies tables
    ensures tables.names == ExtractOne(TreeOf(query), old(tables.names))
    ensures Collected(QueryNode(query), old(tables.names), tables.names)
    decreases query
  {
    ghost var before := tables.names;
    ExtractCtes(query.ctes, tables);
    ExtractSetExpr(query.body, tables);
    RemoveAliases(query.ctes, tables);
    PartCollected(QueryNode(query), before);
    ExtractSingle(TreeOf(query), before);
  }

  method ExtractSetExpr(e: SetExpr, tables: TableList)
    modifies tables
    ensures tables.names == Extract(BodyTrees(e), old(tables.names))
    ensures Collected(ExprNode(e), old(tables.names), tables.names)
    decreases e
  {
    ghost var before := tables.names;
    match e {
      case Select(from) =>
        ExtractFrom(from, tables);
      case SubQuery(query) =>
        ExtractQuery(query, tables);
        ExtractSingle(TreeOf(query), before);
      case SetOperation(left, right) =>
        ExtractSetExpr(left, tables);
        ExtractSetExpr(right, tables);
        ExtractConcat(BodyTrees(left), BodyTrees(right), before);
      case OtherBody =>
    }
    PartCollected(ExprNode(e), before);
  }

  method ExtractFrom(from: seq<TableWithJoins>, tables: TableList)
    modifies tables
    ensures tables.names == Extract(FromTrees(from), old(tables.names))
    decreases from
  {
    var i := 0;
    while i < |from|
      invariant 0 <= i <= |from|
      invariant Extract(FromTrees(from[i..]), tables.names) == Extract(FromTrees(from), old(tables.names))
    {
      ghost var before := tables.names;
      ExtractFactor(from[i].relation, tables);
      ExtractJoins(from[i].joins, tables);
      FromStep(from, i, before);
      i := i + 1;
    }
  }

  lemma {:induction false} FromStep(from: seq<TableWithJoins>, i: nat, acc: seq<ObjectName>)
    requires i < |from|
    ensures Extract(FromTrees(from[i..]), acc) ==
      Extract(FromTrees(from[i + 1..]), Extract(JoinTrees(from[i].joins), Extract(FactorTrees(from[i].relation), acc)))
  {
    var first, joins, rest := FactorTrees(from[i].relation), JoinTrees(from[i].joins), FromTrees(from[i + 1..]);
    assert from[i..][1..] == from[i + 1..];
    assert FromTrees(from[i..]) == first + joins + rest;
    ExtractConcat(first + joins, rest, acc);
    ExtractConcat(first, joins, acc);
  }

  method ExtractJoins(joins: seq<TableFactor>, tables: TableList)
    modifies tables
    ensures tables.names == Extract(JoinTrees(joins), old(tables.names))
    decreases joins
  {
    var i := 0;
    while i < |joins|
      invariant 0 <= i <= |joins|
      invariant Extract(JoinTrees(joins[i..]), tables.names) == Extract(JoinTrees(joins), old(tables.names))
    {
      ghost var before := tables.names;
      ExtractFactor(joins[i], tables);
      assert joins[i..][1..] == joins[i + 1..];
      ExtractConcat(FactorTrees(joins[i]), JoinTrees(joins[i + 1..]), before);
      i := i + 1;
    }
  }

  method ExtractFactor(t: TableFactor, tables: TableList)
    modifies tables
    ensures tables.names == Extract(FactorTrees(t), old(tables.names))
    decreases t
  {
    ghost var before := tables.names;
    match t {
      case Table(name) =>
        tables.Push(name);
        ExtractSingle(Ref(name), before);
      case Derived(subquery) =>
        ExtractQuery(subquery, tables);
        ExtractSingle(TreeOf(subquery), before);
      case OtherFactor =>
    }
  }

  /** The references of a statement, by their positions in the syntax tree and in the order of the
      text: those of whose name no alias is defined around them or after them.  They are exactly
      the free ones, however aliases are scoped, if and only if that holds of every free one; in
      particular if no alias is also the name of a free table. */
  method ExtractTableRefs(stmt: Statement, ghost scoping: Scoping) returns (r: seq<ObjectName>)
    ensures stmt.OtherStatement? ==> r == []
    ensures stmt.QueryStatement? ==>
      exists ps :: ListsSurvivors(stmt.query, ps) && r == NamesAt(QueryNode(stmt.query), ps)
    ensures stmt.QueryStatement? ==>
      exists ps :: ListsFree(scoping, stmt.query, ps) &&
        (r == NamesAt(QueryNode(stmt.query), ps) <==>
           forall p | FreeAt(scoping, stmt.query, p) :: SurvivesAt(stmt.query, p))
    ensures stmt.QueryStatement? ==>
      var t := TreeOf(stmt.query);
      && (r == FreeOf(scoping, t, {}) <==> CleanOne(scoping, t, {}, {}))
      && (NoneOf(AliasesOf(t), FreeOf(scoping, t, {})) ==> r == FreeOf(scoping, t, {}))
  {
    var tables := new TableList();
    if stmt.QueryStatement? {
      ExtractQuery(stmt.query, tables);
      ghost var t := TreeOf(stmt.query);
      ExtractsPositionsIff(scoping, stmt.query);
      ExtractsFreeIff(scoping, t);
      if NoneOf(AliasesOf(t), FreeOf(scoping, t, {})) {
        NoClashExtractsFree(scoping, t);
      }
    }
    r := tables.names;
  }

  function SelectFrom(name: Ident): Query {
    Query(false, [], Select([TableWithJoins(Table([name]), [])]))
  }

  /** WITH t AS (SELECT * FROM u) SELECT * FROM t */
  const DEFINES_T: Query :=
    Query(false, [Cte("t", SelectFrom("u"))], Select([TableWithJoins(Table(["t"]), [])]))

  /** SELECT * FROM t JOIN (WITH t AS (SELECT * FROM u) SELECT * FROM t): the first reference is
      to a table, and is lost because the subquery after it defines an alias of the same name. */
  const LOSES_T: Query := Query(false, [], Select([TableWithJoins(Table(["t"]), [Derived(DEFINES_T)])]))

  lemma LosesTBody()
    ensures TreeOf(LOSES_T).aliases == [] && TreeOf(LOSES_T).body == [Ref(["t"]), TreeOf(DEFINES_T)]
    ensures "t" in AliasesOf(TreeOf(DEFINES_T))
  {
    var factor := TableWithJoins(Table(["t"]), [Derived(DEFINES_T)]);
    assert [factor][1..] == [] && FromTrees([]) == [];
    assert [Derived(DEFINES_T)][1..] == [] && JoinTrees([]) == [];
    assert JoinTrees([Derived(DEFINES_T)]) == [TreeOf(DEFINES_T)];
    assert FromTrees([factor]) == [Ref(["t"])] + [TreeOf(DEFINES_T)];
    assert Aliases(DEFINES_T.ctes) == ["t"];
  }

  lemma {:induction false} LaterAliasHidesTable(scoping: Scoping)
    ensures ExtractOne(TreeOf(LOSES_T), []) != FreeOf(scoping, TreeOf(LOSES_T), {})
  {
    var t := TreeOf(LOSES_T);
    LosesTBody();
    var rest := t.body[1..];
    assert rest == [TreeOf(DEFINES_T)] && rest[1..] == [];
    assert "t" in AliasesIn(rest);
    assert Removable(["t"], {} + Elements(t.aliases) + AliasesIn(rest)) && !Removable(["t"], {} + Elements(t.aliases));
    assert !CleanOne(scoping, t.body[0], {} + Elements(t.aliases) + AliasesIn(rest), {} + Elements(t.aliases));
    ExtractsFreeIff(scoping, t);
  }
}
