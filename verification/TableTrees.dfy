/** The tree of references and scopes, compared with the positions in the syntax tree. */
module TableTrees {
  import opened Wrappers
  import opened Graphs
  import opened TableScopes
  import opened TableSyntax
  import opened TablePositions

  /******* Trees by steps *******/

  function TreesOf(n: Node): seq<Tree> {
    match n
    case QueryNode(q) => [TreeOf(q)]
    case ExprNode(e) => BodyTrees(e)
    case FactorNode(t) => FactorTrees(t)
  }

  ghost function TreesSteps(n: Node, ss: seq<Step>): seq<Tree>
    requires Lead(n, ss)
  {
    if ss == [] then [] else TreesOf(Child(n, ss[0]).value) + TreesSteps(n, ss[1..])
  }

  lemma {:induction false} TreesConcat(n: Node, a: seq<Step>, b: seq<Step>)
    requires Lead(n, a) && Lead(n, b)
    ensures Lead(n, a + b) && TreesSteps(n, a + b) == TreesSteps(n, a) + TreesSteps(n, b)
  {
    if a == [] {
      assert a + b == b;
    } else {
      TreesConcat(n, a[1..], b);
      assert (a + b)[0] == a[0] && (a + b)[1..] == a[1..] + b;
      Associative(TreesOf(Child(n, a[0]).value), TreesSteps(n, a[1..]), TreesSteps(n, b));
    }
  }

  lemma TreesSingle(n: Node, s: Step)
    requires Child(n, s).Some?
    ensures Lead(n, [s]) && TreesSteps(n, [s]) == TreesOf(Child(n, s).value)
  {
    assert [s][1..] == [];
  }

  lemma {:induction false} CteTreesBySteps(q: Query, i: nat)
    requires i <= |q.ctes|
    ensures Lead(QueryNode(q), CteSteps(q.ctes, i))
    ensures TreesSteps(QueryNode(q), CteSteps(q.ctes, i)) == CteTrees(q.ctes[i..])
    decreases |q.ctes| - i
  {
    CteStepsExact(q.ctes, i);
    if i == |q.ctes| {
    } else {
      CteTreesBySteps(q, i + 1);
      TreesSingle(QueryNode(q), InCte(i));
      TreesConcat(QueryNode(q), [InCte(i)], CteSteps(q.ctes, i + 1));
      assert q.ctes[i..][1..] == q.ctes[i + 1..];
    }
  }

  lemma {:induction false} JoinTreesBySteps(e: SetExpr, i: nat, j: nat)
    requires e.Select? && i < |e.from| && j <= |e.from[i].joins|
    ensures Lead(ExprNode(e), JoinSteps(e.from[i].joins, i, j))
    ensures TreesSteps(ExprNode(e), JoinSteps(e.from[i].joins, i, j)) == JoinTrees(e.from[i].joins[j..])
    decreases |e.from[i].joins| - j
  {
    var n, joins := ExprNode(e), e.from[i].joins;
    JoinStepsExact(joins, i, j);
    if j == |joins| {
    } else {
      JoinTreesBySteps(e, i, j + 1);
      TreesSingle(n, InJoin(i, j));
      TreesConcat(n, [InJoin(i, j)], JoinSteps(joins, i, j + 1));
      assert joins[j..][1..] == joins[j + 1..];
    }
  }

  lemma {:induction false} FromTreesBySteps(e: SetExpr, i: nat)
    requires e.Select? && i <= |e.from|
    ensures Lead(ExprNode(e), FromSteps(e.from, i))
    ensures TreesSteps(ExprNode(e), FromSteps(e.from, i)) == FromTrees(e.from[i..])
    decreases |e.from| - i
  {
    var n := ExprNode(e);
    FromStepsExact(e.from, i);
    if i == |e.from| {
    } else {
      var joins := JoinSteps(e.from[i].joins, i, 0);
      FromTreesBySteps(e, i + 1);
      JoinTreesBySteps(e, i, 0);
      assert e.from[i].joins[0..] == e.from[i].joins;
      TreesSingle(n, InFrom(i));
      TreesConcat(n, [InFrom(i)], joins);
      TreesConcat(n, [InFrom(i)] + joins, FromSteps(e.from, i + 1));
      assert e.from[i..][1..] == e.from[i + 1..];
    }
  }

  /** The trees of a node that is neither a query nor a table are those of its parts, in order. */
  lemma TreesBySteps(n: Node)
    requires !n.QueryNode? && !(n.FactorNode? && n.factor.Table?)
    ensures Lead(n, Steps(n)) && TreesOf(n) == TreesSteps(n, Steps(n))
  {
    StepsExact(n);
    match n
    case ExprNode(e) =>
      if e.Select? {
        FromTreesBySteps(e, 0);
        assert e.from[0..] == e.from;
      } else if e.SubQuery? {
        TreesSingle(n, InSubquery);
      } else if e.SetOperation? {
        TreesSingle(n, InLeft);
        TreesSingle(n, InRight);
        TreesConcat(n, [InLeft], [InRight]);
        assert [InLeft] + [InRight] == [InLeft, InRight];
      }
    case FactorNode(t) =>
      if t.Derived? {
        TreesSingle(n, InSubquery);
      }
  }

  /** A query is a scope over the trees of its parts. */
  lemma QueryBySteps(q: Query)
    ensures var n := QueryNode(q);
      && Lead(n, CteSteps(q.ctes, 0)) && Lead(n, Steps(n))
      && TreeOf(q) == Scope(q.recursive, Aliases(q.ctes), TreesSteps(n, CteSteps(q.ctes, 0)), TreesOf(ExprNode(q.body)))
      && TreesSteps(n, Steps(n)) == TreesSteps(n, CteSteps(q.ctes, 0)) + TreesOf(ExprNode(q.body))
  {
    StepsExact(QueryNode(q));
    CteTreesBySteps(q, 0);
    assert q.ctes[0..] == q.ctes;
    TreesSingle(QueryNode(q), InBody);
    TreesConcat(QueryNode(q), CteSteps(q.ctes, 0), [InBody]);
  }

  /******* Which aliases are defined *******/

  ghost predicate Defined(n: Node, a: Ident) {
    exists r :: DefinesAt(n, r, a)
  }

  ghost predicate DefinedIn(n: Node, ss: seq<Step>, a: Ident)
    requires Lead(n, ss)
  {
    exists s | s in ss :: Defined(Child(n, s).value, a)
  }

  lemma DefinesStep(n: Node, s: Step, r: Path, a: Ident)
    requires Child(n, s).Some?
    ensures DefinesAt(n, [s] + r, a) <==> DefinesAt(Child(n, s).value, r, a)
  {
    assert ([s] + r)[1..] == r;
  }

  lemma DefinedBySteps(n: Node, a: Ident)
    ensures Lead(n, Steps(n)) && (Defined(n, a) <==> a in Own(n) || DefinedIn(n, Steps(n), a))
  {
    StepsExact(n);
    if Defined(n, a) {
      var r :| DefinesAt(n, r, a);
      if r != [] {
        assert r == [r[0]] + r[1..];
        DefinesStep(n, r[0], r[1..], a);
        assert Defined(Child(n, r[0]).value, a);
      }
    }
    if a in Own(n) {
      assert DefinesAt(n, [], a);
    }
    if DefinedIn(n, Steps(n), a) {
      var s :| s in Steps(n) && Defined(Child(n, s).value, a);
      var r :| DefinesAt(Child(n, s).value, r, a);
      DefinesStep(n, s, r, a);
    }
  }

  lemma {:induction false} AliasesConcat(f: seq<Tree>, g: seq<Tree>)
    ensures AliasesIn(f + g) == AliasesIn(f) + AliasesIn(g)
    decreases |f|
  {
    if f == [] {
      assert f + g == g;
    } else {
      assert (f + g)[1..] == f[1..] + g;
      AliasesConcat(f[1..], g);
    }
  }

  lemma AliasesSingle(t: Tree)
    ensures AliasesIn([t]) == AliasesOf(t)
  {
    assert [t][1..] == [];
  }

  /** The aliases of the trees are those that are defined at some position. */
  lemma {:induction false} AliasesDefined(n: Node, a: Ident)
    ensures a in AliasesIn(TreesOf(n)) <==> Defined(n, a)
    decreases Size(n), |Steps(n)| + 1
  {
    DefinedBySteps(n, a);
    if n.QueryNode? {
      var q := n.query;
      QueryBySteps(q);
      AliasesSingle(TreeOf(q));
      AliasesConcat(TreesSteps(n, CteSteps(q.ctes, 0)), TreesOf(ExprNode(q.body)));
      StepsDefined(n, Steps(n), a);
    } else if n.FactorNode? && n.factor.Table? {
      AliasesSingle(Ref(n.factor.name));
    } else {
      TreesBySteps(n);
      StepsDefined(n, Steps(n), a);
    }
  }

  lemma {:induction false} StepsDefined(n: Node, ss: seq<Step>, a: Ident)
    requires Lead(n, ss)
    ensures a in AliasesIn(TreesSteps(n, ss)) <==> DefinedIn(n, ss, a)
    decreases Size(n), |ss|
  {
    if ss == [] {
    } else {
      ChildSmaller(n, ss[0]);
      AliasesDefined(Child(n, ss[0]).value, a);
      StepsDefined(n, ss[1..], a);
      AliasesConcat(TreesOf(Child(n, ss[0]).value), TreesSteps(n, ss[1..]));
      if DefinedIn(n, ss[1..], a) {
        var s :| s in ss[1..] && Defined(Child(n, s).value, a);
        assert s in ss;
      }
      if DefinedIn(n, ss, a) && !Defined(Child(n, ss[0]).value, a) {
        var s :| s in ss && Defined(Child(n, s).value, a);
        assert s in ss[1..];
      }
    }
  }

  /** An alias is defined around a position or after it if the node itself defines it, or if that
      holds further down the path, or if a later part of the node defines it. */
  lemma LaterBySteps(n: Node, k: nat, p: Path, a: Ident)
    requires k < |Steps(n)| && Lead(n, Steps(n)) && Ordered(Steps(n))
    ensures var s, rest := Steps(n)[k], Steps(n)[k + 1..];
      DefinedLater(n, [s] + p, a) <==>
        a in Own(n) || DefinedLater(Child(n, s).value, p, a) || DefinedIn(n, rest, a)
  {
    var s, rest := Steps(n)[k], Steps(n)[k + 1..];
    var c := Child(n, s).value;
    if DefinedLater(n, [s] + p, a) {
      LaterDown(n, k, p, a);
    }
    if a in Own(n) {
      assert DefinesAt(n, [], a) && [] <= [s] + p;
    }
    if DefinedLater(c, p, a) {
      var r :| DefinesAt(c, r, a) && (r <= p || PathLt(p, r));
      DefinesStep(n, s, r, a);
      assert ([s] + p)[1..] == p && ([s] + r)[1..] == r;
      assert [s] + r <= [s] + p || PathLt([s] + p, [s] + r);
    }
    if DefinedIn(n, rest, a) {
      var t :| t in rest && Defined(Child(n, t).value, a);
      var r :| DefinesAt(Child(n, t).value, r, a);
      DefinesStep(n, t, r, a);
      var j :| 0 <= j < |rest| && rest[j] == t;
      assert StepLt(Steps(n)[k], Steps(n)[k + 1 + j]);
      assert PathLt([s] + p, [t] + r);
    }
  }

  lemma LaterDown(n: Node, k: nat, p: Path, a: Ident)
    requires k < |Steps(n)| && Lead(n, Steps(n)) && Ordered(Steps(n)) && DefinedLater(n, [Steps(n)[k]] + p, a)
    ensures a in Own(n) || DefinedLater(Child(n, Steps(n)[k]).value, p, a) || DefinedIn(n, Steps(n)[k + 1..], a)
  {
    var s := Steps(n)[k];
    var r :| DefinesAt(n, r, a) && (r <= [s] + p || PathLt([s] + p, r));
    if r != [] {
      assert r == [r[0]] + r[1..] && ([s] + p)[1..] == p;
      DefinesStep(n, r[0], r[1..], a);
      if r[0] != s {
        StepAfter(n, k, r[0]);
        assert Defined(Child(n, r[0]).value, a);
      }
    }
  }

  lemma StepAfter(n: Node, k: nat, t: Step)
    requires k < |Steps(n)| && Ordered(Steps(n)) && Child(n, t).Some? && StepLt(Steps(n)[k], t)
    ensures t in Steps(n)[k + 1..]
  {
    StepsExact(n);
    var j :| 0 <= j < |Steps(n)| && Steps(n)[j] == t;
    assert Steps(n)[k + 1..][j - k - 1] == t;
  }
}
