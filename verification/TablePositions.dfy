/**
 Positions in the syntax tree of a query: which of them are table references, in which
 order they stand in the text, what binds them, and what extraction makes of them.
 */
module TablePositions {
  import opened Wrappers
  import opened Graphs
  import opened TableScopes
  import opened TableSyntax

  datatype Node = QueryNode(query: Query) | ExprNode(expr: SetExpr) | FactorNode(factor: TableFactor)

  datatype Step =
    | InCte(i: nat)
    | InBody
    | InLeft
    | InRight
    | InSubquery
    | InFrom(i: nat)
    | InJoin(i: nat, j: nat)

  type Path = seq<Step>

  /******* Positions *******/

  /** Where a step leads. */
  function Child(n: Node, s: Step): Option<Node> {
    match n
    case QueryNode(q) =>
      if s.InCte? && s.i < |q.ctes| then Some(QueryNode(q.ctes[s.i].query))
      else if s.InBody? then Some(ExprNode(q.body))
      else None
    case ExprNode(e) =>
      if e.Select? && s.InFrom? && s.i < |e.from| then Some(FactorNode(e.from[s.i].relation))
      else if e.Select? && s.InJoin? && s.i < |e.from| && s.j < |e.from[s.i].joins| then
        Some(FactorNode(e.from[s.i].joins[s.j]))
      else if e.SubQuery? && s.InSubquery? then Some(QueryNode(e.query))
      else if e.SetOperation? && s.InLeft? then Some(ExprNode(e.left))
      else if e.SetOperation? && s.InRight? then Some(ExprNode(e.right))
      else None
    case FactorNode(t) => if t.Derived? && s.InSubquery? then Some(QueryNode(t.subquery)) else None
  }

  /** Where a path leads. */
  function At(n: Node, p: Path): Option<Node>
    decreases |p|
  {
    if p == [] then Some(n)
    else
      var c := Child(n, p[0]);
      if c.None? then None else At(c.value, p[1..])
  }

  predicate IsTable(n: Node, p: Path) {
    var m := At(n, p);
    m.Some? && m.value.FactorNode? && m.value.factor.Table?
  }

  function NameAt(n: Node, p: Path): ObjectName
    requires IsTable(n, p)
  {
    At(n, p).value.factor.name
  }

  /** One step stands before another in the text. */
  predicate StepLt(s: Step, t: Step) {
    || (s.InCte? && t.InCte? && s.i < t.i)
    || (s.InCte? && t.InBody?)
    || (s.InLeft? && t.InRight?)
    || (s.InFrom? && t.InFrom? && s.i < t.i)
    || (s.InFrom? && t.InJoin? && s.i <= t.i)
    || (s.InJoin? && t.InFrom? && s.i < t.i)
    || (s.InJoin? && t.InJoin? && (s.i < t.i || (s.i == t.i && s.j < t.j)))
  }

  /** One path stands before another in the text, and neither leads on from the other. */
  predicate PathLt(p: Path, q: Path) {
    p != [] && q != [] && (StepLt(p[0], q[0]) || (p[0] == q[0] && PathLt(p[1..], q[1..])))
  }

  ghost predicate InTextOrder(ps: seq<Path>) {
    forall i, j | 0 <= i < j < |ps| :: PathLt(ps[i], ps[j])
  }

  /** The aliases that a node defines itself. */
  function Own(n: Node): set<Ident> {
    if n.QueryNode? then Elements(Aliases(n.query.ctes)) else {}
  }

  /** The aliases that a step brings into scope. */
  function StepBinds(scoping: Scoping, n: Node, s: Step): set<Ident> {
    if n.QueryNode? && s.InCte? then Visible(scoping, n.query.recursive, Aliases(n.query.ctes), s.i)
    else if n.QueryNode? && s.InBody? then Own(n)
    else {}
  }

  /** The aliases that are in scope at the end of a path. */
  function BoundAt(scoping: Scoping, n: Node, p: Path): set<Ident>
    decreases |p|
  {
    if p == [] || Child(n, p[0]).None? then {}
    else StepBinds(scoping, n, p[0]) + BoundAt(scoping, Child(n, p[0]).value, p[1..])
  }

  /** The path leads to a query that defines the alias. */
  predicate DefinesAt(n: Node, p: Path, a: Ident) {
    At(n, p).Some? && a in Own(At(n, p).value)
  }

  /** The alias is defined by a query around the position, or by one after it. */
  ghost predicate DefinedLater(n: Node, p: Path, a: Ident) {
    exists r :: DefinesAt(n, r, a) && (r <= p || PathLt(p, r))
  }

  /** A table reference that no WITH clause binds. */
  ghost predicate FreeAt(scoping: Scoping, q: Query, p: Path) {
    IsTable(QueryNode(q), p) && !Removable(NameAt(QueryNode(q), p), BoundAt(scoping, QueryNode(q), p))
  }

  /** A table reference of whose name no alias is defined around it or after it. */
  ghost predicate SurvivesAt(q: Query, p: Path) {
    && IsTable(QueryNode(q), p)
    && !(|NameAt(QueryNode(q), p)| == 1 && DefinedLater(QueryNode(q), p, NameAt(QueryNode(q), p)[0]))
  }

  function NamesAt(n: Node, ps: seq<Path>): (r: seq<ObjectName>)
    requires forall i | 0 <= i < |ps| :: IsTable(n, ps[i])
    ensures |r| == |ps|
  {
    if ps == [] then [] else [NameAt(n, ps[0])] + NamesAt(n, ps[1..])
  }

  /******* Steps in order *******/

  function CteSteps(ctes: seq<Cte>, i: nat): seq<Step>
    decreases |ctes| - i
  {
    if i >= |ctes| then [] else [InCte(i)] + CteSteps(ctes, i + 1)
  }

  function JoinSteps(joins: seq<TableFactor>, i: nat, j: nat): seq<Step>
    decreases |joins| - j
  {
    if j >= |joins| then [] else [InJoin(i, j)] + JoinSteps(joins, i, j + 1)
  }

  function FromSteps(from: seq<TableWithJoins>, i: nat): seq<Step>
    decreases |from| - i
  {
    if i >= |from| then [] else [InFrom(i)] + JoinSteps(from[i].joins, i, 0) + FromSteps(from, i + 1)
  }

  function Steps(n: Node): seq<Step> {
    match n
    case QueryNode(q) => CteSteps(q.ctes, 0) + [InBody]
    case ExprNode(e) =>
      (match e
       case Select(from) => FromSteps(from, 0)
       case SubQuery(_) => [InSubquery]
       case SetOperation(_, _) => [InLeft, InRight]
       case OtherBody => [])
    case FactorNode(t) => if t.Derived? then [InSubquery] else []
  }

  ghost predicate Ordered(ss: seq<Step>) {
    forall i, j | 0 <= i < j < |ss| :: StepLt(ss[i], ss[j])
  }

  lemma OrderedConcat(a: seq<Step>, b: seq<Step>)
    requires Ordered(a) && Ordered(b) && forall s, t | s in a && t in b :: StepLt(s, t)
    ensures Ordered(a + b)
  {
    forall i, j | 0 <= i < j < |a + b|
      ensures StepLt((a + b)[i], (a + b)[j])
    {
      if i < |a| <= j {
        assert a[i] in a && b[j - |a|] in b;
      }
    }
  }

  lemma {:induction false} CteStepsExact(ctes: seq<Cte>, i: nat)
    ensures forall s :: s in CteSteps(ctes, i) <==> s.InCte? && i <= s.i < |ctes|
    ensures Ordered(CteSteps(ctes, i))
    decreases |ctes| - i
  {
    if i >= |ctes| {
    } else {
      CteStepsExact(ctes, i + 1);
      OrderedConcat([InCte(i)], CteSteps(ctes, i + 1));
    }
  }

  lemma {:induction false} JoinStepsExact(joins: seq<TableFactor>, i: nat, j: nat)
    ensures forall s :: s in JoinSteps(joins, i, j) <==> s.InJoin? && s.i == i && j <= s.j < |joins|
    ensures Ordered(JoinSteps(joins, i, j))
    decreases |joins| - j
  {
    if j >= |joins| {
    } else {
      JoinStepsExact(joins, i, j + 1);
      OrderedConcat([InJoin(i, j)], JoinSteps(joins, i, j + 1));
    }
  }

  lemma {:induction false} FromStepsExact(from: seq<TableWithJoins>, i: nat)
    ensures forall s :: s in FromSteps(from, i) <==>
      || (s.InFrom? && i <= s.i < |from|)
      || (s.InJoin? && i <= s.i < |from| && s.j < |from[s.i].joins|)
    ensures Ordered(FromSteps(from, i))
    decreases |from| - i
  {
    if i >= |from| {
    } else {
      FromStepsExact(from, i + 1);
      JoinStepsExact(from[i].joins, i, 0);
      OrderedConcat([InFrom(i)], JoinSteps(from[i].joins, i, 0));
      OrderedConcat([InFrom(i)] + JoinSteps(from[i].joins, i, 0), FromSteps(from, i + 1));
    }
  }

  /** The steps that lead somewhere, in the order of the text. */
  lemma StepsExact(n: Node)
    ensures forall s :: s in Steps(n) <==> Child(n, s).Some?
    ensures Ordered(Steps(n))
  {
    match n
    case QueryNode(q) =>
      CteStepsExact(q.ctes, 0);
      OrderedConcat(CteSteps(q.ctes, 0), [InBody]);
    case ExprNode(e) =>
      if e.Select? {
        FromStepsExact(e.from, 0);
      }
    case FactorNode(t) =>
  }

  /******* Sizes *******/

  function QuerySize(q: Query): nat
    decreases q
  {
    1 + CtesSize(q.ctes) + ExprSize(q.body)
  }

  function CtesSize(ctes: seq<Cte>): nat
    decreases ctes
  {
    if ctes == [] then 0 else QuerySize(ctes[0].query) + CtesSize(ctes[1..])
  }

  function ExprSize(e: SetExpr): nat
    decreases e
  {
    match e
    case Select(from) => 1 + FromSize(from)
    case SubQuery(query) => 1 + QuerySize(query)
    case SetOperation(left, right) => 1 + ExprSize(left) + ExprSize(right)
    case OtherBody => 1
  }

  function FromSize(from: seq<TableWithJoins>): nat
    decreases from
  {
    if from == [] then 0 else FactorSize(from[0].relation) + JoinsSize(from[0].joins) + FromSize(from[1..])
  }

  function JoinsSize(joins: seq<TableFactor>): nat
    decreases joins
  {
    if joins == [] then 0 else FactorSize(joins[0]) + JoinsSize(joins[1..])
  }

  function FactorSize(t: TableFactor): nat
    decreases t
  {
    if t.Derived? then 1 + QuerySize(t.subquery) else 1
  }

  function Size(n: Node): nat {
    match n
    case QueryNode(q) => QuerySize(q)
    case ExprNode(e) => ExprSize(e)
    case FactorNode(t) => FactorSize(t)
  }

  lemma {:induction false} CteSmaller(ctes: seq<Cte>, i: nat)
    requires i < |ctes|
    ensures QuerySize(ctes[i].query) <= CtesSize(ctes)
  {
    if i == 0 {
    } else {
      CteSmaller(ctes[1..], i - 1);
    }
  }

  lemma {:induction false} JoinSmaller(joins: seq<TableFactor>, j: nat)
    requires j < |joins|
    ensures FactorSize(joins[j]) <= JoinsSize(joins)
  {
    if j == 0 {
    } else {
      JoinSmaller(joins[1..], j - 1);
    }
  }

  lemma {:induction false} FromSmaller(from: seq<TableWithJoins>, i: nat)
    requires i < |from|
    ensures FactorSize(from[i].relation) + JoinsSize(from[i].joins) <= FromSize(from)
  {
    if i == 0 {
    } else {
      FromSmaller(from[1..], i - 1);
    }
  }

  lemma ChildSmaller(n: Node, s: Step)
    requires Child(n, s).Some?
    ensures Size(Child(n, s).value) < Size(n)
  {
    match n
    case QueryNode(q) =>
      if s.InCte? {
        CteSmaller(q.ctes, s.i);
      }
    case ExprNode(e) =>
      if e.Select? {
        FromSmaller(e.from, s.i);
        if s.InJoin? {
          JoinSmaller(e.from[s.i].joins, s.j);
        }
      }
    case FactorNode(t) =>
  }

  /******* All table references, in the order of the text *******/

  ghost predicate Lead(n: Node, ss: seq<Step>) {
    forall s | s in ss :: Child(n, s).Some?
  }

  function Prefixed(s: Step, ps: seq<Path>): (r: seq<Path>)
    ensures |r| == |ps| && forall i | 0 <= i < |r| :: r[i] == [s] + ps[i]
  {
    seq(|ps|, i requires 0 <= i < |ps| => [s] + ps[i])
  }

  ghost function Listing(n: Node): seq<Path>
    decreases Size(n), |Steps(n)| + 1
  {
    StepsExact(n);
    if n.FactorNode? && n.factor.Table? then [[]] else ListingSteps(n, Steps(n))
  }

  ghost function ListingSteps(n: Node, ss: seq<Step>): seq<Path>
    requires Lead(n, ss)
    decreases Size(n), |ss|
  {
    if ss == [] then []
    else
      ChildSmaller(n, ss[0]);
      Prefixed(ss[0], Listing(Child(n, ss[0]).value)) + ListingSteps(n, ss[1..])
  }

  lemma TableStep(n: Node, s: Step, p: Path)
    requires Child(n, s).Some?
    ensures IsTable(n, [s] + p) <==> IsTable(Child(n, s).value, p)
    ensures IsTable(n, [s] + p) ==> NameAt(n, [s] + p) == NameAt(Child(n, s).value, p)
  {
    assert ([s] + p)[1..] == p;
  }

  lemma PrefixedMember(s: Step, ps: seq<Path>, p: Path)
    ensures p in Prefixed(s, ps) <==> p != [] && p[0] == s && p[1..] in ps
  {
    var r := Prefixed(s, ps);
    if p in r {
      var i :| 0 <= i < |r| && r[i] == p;
      assert p[1..] == ps[i];
    }
    if p != [] && p[0] == s && p[1..] in ps {
      var i :| 0 <= i < |ps| && ps[i] == p[1..];
      assert r[i] == [s] + p[1..] == p;
    }
  }

  /** The listing holds exactly the table references. */
  lemma {:induction false} ListedIff(n: Node, p: Path)
    ensures p in Listing(n) <==> IsTable(n, p)
    decreases Size(n), |Steps(n)| + 1
  {
    StepsExact(n);
    if n.FactorNode? && n.factor.Table? {
    } else {
      StepsListedIff(n, Steps(n), p);
    }
  }

  lemma {:induction false} StepsListedIff(n: Node, ss: seq<Step>, p: Path)
    requires Lead(n, ss)
    ensures p in ListingSteps(n, ss) <==> p != [] && p[0] in ss && IsTable(n, p)
    decreases Size(n), |ss|
  {
    if ss == [] {
    } else {
      var s := ss[0];
      var c := Child(n, s).value;
      ChildSmaller(n, s);
      StepsListedIff(n, ss[1..], p);
      PrefixedMember(s, Listing(c), p);
      if p != [] && p[0] == s {
        ListedIff(c, p[1..]);
        TableStep(n, s, p[1..]);
        assert [s] + p[1..] == p;
      }
    }
  }

  lemma OrderConcat(a: seq<Path>, b: seq<Path>)
    requires InTextOrder(a) && InTextOrder(b) && forall p, q | p in a && q in b :: PathLt(p, q)
    ensures InTextOrder(a + b)
  {
    forall i, j | 0 <= i < j < |a + b|
      ensures PathLt((a + b)[i], (a + b)[j])
    {
      if i < |a| <= j {
        assert a[i] in a && b[j - |a|] in b;
      }
    }
  }

  lemma OrderPrefixed(s: Step, ps: seq<Path>)
    requires InTextOrder(ps)
    ensures InTextOrder(Prefixed(s, ps))
  {
    forall i, j | 0 <= i < j < |ps|
      ensures PathLt([s] + ps[i], [s] + ps[j])
    {
      assert ([s] + ps[i])[1..] == ps[i] && ([s] + ps[j])[1..] == ps[j];
    }
  }

  /** And lists them in the order of the text. */
  lemma {:induction false} ListedInOrder(n: Node)
    ensures InTextOrder(Listing(n))
    decreases Size(n), |Steps(n)| + 1
  {
    StepsExact(n);
    if n.FactorNode? && n.factor.Table? {
    } else {
      StepsListedInOrder(n, Steps(n));
    }
  }

  lemma {:induction false} StepsListedInOrder(n: Node, ss: seq<Step>)
    requires Lead(n, ss) && Ordered(ss)
    ensures InTextOrder(ListingSteps(n, ss))
    decreases Size(n), |ss|
  {
    if ss == [] {
    } else {
      var s := ss[0];
      var first, rest := Prefixed(s, Listing(Child(n, s).value)), ListingSteps(n, ss[1..]);
      ChildSmaller(n, s);
      ListedInOrder(Child(n, s).value);
      OrderPrefixed(s, Listing(Child(n, s).value));
      StepsListedInOrder(n, ss[1..]);
      forall p, q | p in first && q in rest
        ensures PathLt(p, q)
      {
        PrefixedMember(s, Listing(Child(n, s).value), p);
        StepsListedIff(n, ss[1..], q);
        var j :| 0 <= j < |ss| - 1 && ss[1..][j] == q[0];
        assert StepLt(ss[0], ss[j + 1]);
      }
      OrderConcat(first, rest);
    }
  }
}
