/** What extraction keeps of the table references of a query, position by position. */
module TableExtraction {
  import opened Wrappers
  import opened Graphs
  import opened TableScopes
  import opened TableSyntax
  import opened TablePositions
  import opened TableTrees

  ghost predicate Tables(n: Node, ps: seq<Path>) {
    forall i | 0 <= i < |ps| :: IsTable(n, ps[i])
  }

  /******* What is kept *******/

  /** The reference is removed if also the names in r are removed at the end. */
  ghost predicate RemovedAt(n: Node, p: Path, r: set<Ident>)
    requires IsTable(n, p)
  {
    var name := NameAt(n, p);
    |name| == 1 && (name[0] in r || DefinedLater(n, p, name[0]))
  }

  ghost function KeptNames(n: Node, ps: seq<Path>, r: set<Ident>): seq<ObjectName>
    requires Tables(n, ps)
  {
    if ps == [] then []
    else (if RemovedAt(n, ps[0], r) then [] else [NameAt(n, ps[0])]) + KeptNames(n, ps[1..], r)
  }

  lemma {:induction false} KeptNamesConcat(n: Node, a: seq<Path>, b: seq<Path>, r: set<Ident>)
    requires Tables(n, a) && Tables(n, b)
    ensures Tables(n, a + b) && KeptNames(n, a + b, r) == KeptNames(n, a, r) + KeptNames(n, b, r)
  {
    if a == [] {
      assert a + b == b;
    } else {
      KeptNamesConcat(n, a[1..], b, r);
      assert (a + b)[0] == a[0] && (a + b)[1..] == a[1..] + b;
      Associative(if RemovedAt(n, a[0], r) then [] else [NameAt(n, a[0])], KeptNames(n, a[1..], r), KeptNames(n, b, r));
    }
  }

  lemma {:induction false} KeptConcat(f: seq<Tree>, g: seq<Tree>, r: set<Ident>)
    ensures Kept(f + g, r) == Kept(f, r + AliasesIn(g)) + Kept(g, r)
    decreases |f|
  {
    if f == [] {
      assert f + g == g;
    } else {
      assert (f + g)[0] == f[0] && (f + g)[1..] == f[1..] + g;
      KeptConcat(f[1..], g, r);
      AliasesConcat(f[1..], g);
      assert r + AliasesIn(f[1..] + g) == r + AliasesIn(g) + AliasesIn(f[1..]);
      Associative(KeptOf(f[0], r + AliasesIn(g) + AliasesIn(f[1..])), Kept(f[1..], r + AliasesIn(g)), Kept(g, r));
    }
  }

  lemma KeptSingle(t: Tree, r: set<Ident>)
    ensures Kept([t], r) == KeptOf(t, r)
  {
    assert [t][1..] == [];
    assert r + AliasesIn([]) == r;
  }

  lemma ListingTables(n: Node)
    ensures Tables(n, Listing(n))
  {
    forall i | 0 <= i < |Listing(n)|
      ensures IsTable(n, Listing(n)[i])
    {
      ListedIff(n, Listing(n)[i]);
    }
  }

  lemma StepsTables(n: Node, ss: seq<Step>)
    requires Lead(n, ss)
    ensures Tables(n, ListingSteps(n, ss))
  {
    forall i | 0 <= i < |ListingSteps(n, ss)|
      ensures IsTable(n, ListingSteps(n, ss)[i])
    {
      StepsListedIff(n, ss, ListingSteps(n, ss)[i]);
    }
  }

  /** One reference, seen from the node and from the part of it that holds the reference. */
  lemma RemovedStep(n: Node, k: nat, p: Path, r: set<Ident>)
    requires k < |Steps(n)| && Lead(n, Steps(n)) && Ordered(Steps(n)) && IsTable(Child(n, Steps(n)[k]).value, p)
    ensures var s, rest := Steps(n)[k], Steps(n)[k + 1..];
      && IsTable(n, [s] + p) && NameAt(n, [s] + p) == NameAt(Child(n, s).value, p)
      && (RemovedAt(n, [s] + p, r) <==>
            RemovedAt(Child(n, s).value, p, r + Own(n) + AliasesIn(TreesSteps(n, rest))))
  {
    var s, rest := Steps(n)[k], Steps(n)[k + 1..];
    TableStep(n, s, p);
    var name := NameAt(n, [s] + p);
    if |name| == 1 {
      LaterBySteps(n, k, p, name[0]);
      StepsDefined(n, rest, name[0]);
    }
  }

  lemma {:induction false} KeptNamesStep(n: Node, k: nat, ps: seq<Path>, r: set<Ident>)
    requires k < |Steps(n)| && Lead(n, Steps(n)) && Ordered(Steps(n)) && Tables(Child(n, Steps(n)[k]).value, ps)
    ensures var s, rest := Steps(n)[k], Steps(n)[k + 1..];
      && Tables(n, Prefixed(s, ps))
      && KeptNames(n, Prefixed(s, ps), r) ==
           KeptNames(Child(n, s).value, ps, r + Own(n) + AliasesIn(TreesSteps(n, rest)))
  {
    var s := Steps(n)[k];
    forall i | 0 <= i < |ps|
      ensures IsTable(n, Prefixed(s, ps)[i])
    {
      TableStep(n, s, ps[i]);
    }
    if ps == [] {
    } else {
      RemovedStep(n, k, ps[0], r);
      KeptNamesStep(n, k, ps[1..], r);
      assert Prefixed(s, ps)[1..] == Prefixed(s, ps[1..]);
    }
  }

  /** The trees keep the names of the references that are not removed. */
  lemma {:induction false} KeptByPosition(n: Node, r: set<Ident>)
    ensures Tables(n, Listing(n)) && Kept(TreesOf(n), r) == KeptNames(n, Listing(n), r)
    decreases Size(n), |Steps(n)| + 1
  {
    ListingTables(n);
    StepsExact(n);
    if n.FactorNode? && n.factor.Table? {
      KeptSingle(Ref(n.factor.name), r);
      LeafKept(n, r);
    } else if n.QueryNode? {
      var q := n.query;
      QueryBySteps(q);
      KeptSingle(TreeOf(q), r);
      KeptConcat(TreesSteps(n, CteSteps(q.ctes, 0)), TreesOf(ExprNode(q.body)), r + Own(n));
      KeptStepsByPosition(n, 0, r);
      assert Steps(n)[0..] == Steps(n);
    } else {
      TreesBySteps(n);
      KeptStepsByPosition(n, 0, r);
      assert Steps(n)[0..] == Steps(n) && r + Own(n) == r;
    }
  }

  lemma LeafKept(n: Node, r: set<Ident>)
    requires n.FactorNode? && n.factor.Table?
    ensures Tables(n, [[]])
    ensures KeptNames(n, [[]], r) == if Removable(n.factor.name, r) then [] else [n.factor.name]
  {
    assert IsTable(n, []);
    var none: seq<Path>, leaf: seq<Path> := [], [[]];
    assert leaf[1..] == none && KeptNames(n, none, r) == [];
  }

  lemma {:induction false} KeptStepsByPosition(n: Node, k: nat, r: set<Ident>)
    requires k <= |Steps(n)| && Lead(n, Steps(n)) && Ordered(Steps(n))
    ensures var ss := Steps(n)[k..];
      Tables(n, ListingSteps(n, ss)) && Kept(TreesSteps(n, ss), r + Own(n)) == KeptNames(n, ListingSteps(n, ss), r)
    decreases Size(n), |Steps(n)| - k
  {
    var ss := Steps(n)[k..];
    StepsTables(n, ss);
    if k == |Steps(n)| {
    } else {
      var s, rest := Steps(n)[k], Steps(n)[k + 1..];
      var c := Child(n, s).value;
      assert ss[0] == s && ss[1..] == rest;
      ChildSmaller(n, s);
      KeptByPosition(c, r + Own(n) + AliasesIn(TreesSteps(n, rest)));
      KeptNamesStep(n, k, Listing(c), r);
      KeptStepsByPosition(n, k + 1, r);
      KeptConcat(TreesOf(c), TreesSteps(n, rest), r + Own(n));
      KeptNamesConcat(n, Prefixed(s, Listing(c)), ListingSteps(n, rest), r);
    }
  }

  /******* What is free *******/

  ghost function FreeNames(scoping: Scoping, n: Node, ps: seq<Path>, bound: set<Ident>): seq<ObjectName>
    requires Tables(n, ps)
  {
    if ps == [] then []
    else
      (if Removable(NameAt(n, ps[0]), bound + BoundAt(scoping, n, ps[0])) then [] else [NameAt(n, ps[0])]) +
      FreeNames(scoping, n, ps[1..], bound)
  }

  /** The free references of the parts, each with what the step to it binds. */
  ghost function FreeSteps(scoping: Scoping, n: Node, ss: seq<Step>, bound: set<Ident>): seq<ObjectName>
    requires Lead(n, ss)
  {
    if ss == [] then []
    else
      Free(scoping, TreesOf(Child(n, ss[0]).value), bound + StepBinds(scoping, n, ss[0])) +
      FreeSteps(scoping, n, ss[1..], bound)
  }

  lemma {:induction false} FreeNamesConcat(
      scoping: Scoping, n: Node, a: seq<Path>, b: seq<Path>, bound: set<Ident>)
    requires Tables(n, a) && Tables(n, b)
    ensures Tables(n, a + b)
    ensures FreeNames(scoping, n, a + b, bound) == FreeNames(scoping, n, a, bound) + FreeNames(scoping, n, b, bound)
  {
    if a == [] {
      assert a + b == b;
    } else {
      FreeNamesConcat(scoping, n, a[1..], b, bound);
      assert (a + b)[0] == a[0] && (a + b)[1..] == a[1..] + b;
      var first := if Removable(NameAt(n, a[0]), bound + BoundAt(scoping, n, a[0])) then [] else [NameAt(n, a[0])];
      Associative(first, FreeNames(scoping, n, a[1..], bound), FreeNames(scoping, n, b, bound));
    }
  }

  lemma {:induction false} FreeConcat(scoping: Scoping, f: seq<Tree>, g: seq<Tree>, bound: set<Ident>)
    ensures Free(scoping, f + g, bound) == Free(scoping, f, bound) + Free(scoping, g, bound)
    decreases |f|
  {
    if f == [] {
      assert f + g == g;
    } else {
      assert (f + g)[0] == f[0] && (f + g)[1..] == f[1..] + g;
      FreeConcat(scoping, f[1..], g, bound);
      Associative(FreeOf(scoping, f[0], bound), Free(scoping, f[1..], bound), Free(scoping, g, bound));
    }
  }

  lemma FreeSingle(scoping: Scoping, t: Tree, bound: set<Ident>)
    ensures Free(scoping, [t], bound) == FreeOf(scoping, t, bound)
  {
    assert [t][1..] == [];
  }

  lemma {:induction false} FreeStepsConcat(
      scoping: Scoping, n: Node, a: seq<Step>, b: seq<Step>, bound: set<Ident>)
    requires Lead(n, a) && Lead(n, b)
    ensures Lead(n, a + b)
    ensures FreeSteps(scoping, n, a + b, bound) == FreeSteps(scoping, n, a, bound) + FreeSteps(scoping, n, b, bound)
  {
    if a == [] {
      assert a + b == b;
    } else {
      FreeStepsConcat(scoping, n, a[1..], b, bound);
      assert (a + b)[0] == a[0] && (a + b)[1..] == a[1..] + b;
      Associative(Free(scoping, TreesOf(Child(n, a[0]).value), bound + StepBinds(scoping, n, a[0])),
        FreeSteps(scoping, n, a[1..], bound), FreeSteps(scoping, n, b, bound));
    }
  }

  lemma {:induction false} FreeOutsideQueries(scoping: Scoping, n: Node, ss: seq<Step>, bound: set<Ident>)
    requires Lead(n, ss) && !n.QueryNode?
    ensures Free(scoping, TreesSteps(n, ss), bound) == FreeSteps(scoping, n, ss, bound)
  {
    if ss == [] {
    } else {
      FreeOutsideQueries(scoping, n, ss[1..], bound);
      FreeConcat(scoping, TreesOf(Child(n, ss[0]).value), TreesSteps(n, ss[1..]), bound);
      assert bound + {} == bound;
    }
  }

  lemma {:induction false} FreeCtesBySteps(scoping: Scoping, q: Query, i: nat, bound: set<Ident>)
    requires i <= |q.ctes|
    ensures Lead(QueryNode(q), CteSteps(q.ctes, i))
    ensures FreeInCtes(scoping, q.recursive, Aliases(q.ctes), i, CteTrees(q.ctes[i..]), bound) ==
      FreeSteps(scoping, QueryNode(q), CteSteps(q.ctes, i), bound)
    decreases |q.ctes| - i
  {
    CteStepsExact(q.ctes, i);
    if i == |q.ctes| {
    } else {
      FreeCtesBySteps(scoping, q, i + 1, bound);
      FreeSingle(scoping, TreeOf(q.ctes[i].query), bound + Visible(scoping, q.recursive, Aliases(q.ctes), i));
      assert q.ctes[i..][1..] == q.ctes[i + 1..];
      assert CteTrees(q.ctes[i..])[1..] == CteTrees(q.ctes[i + 1..]);
      assert CteSteps(q.ctes, i)[1..] == CteSteps(q.ctes, i + 1);
    }
  }

  lemma FreeInQuery(scoping: Scoping, q: Query, bound: set<Ident>)
    ensures var n := QueryNode(q);
      Lead(n, Steps(n)) && FreeOf(scoping, TreeOf(q), bound) == FreeSteps(scoping, n, Steps(n), bound)
  {
    var n := QueryNode(q);
    StepsExact(n);
    FreeCtesBySteps(scoping, q, 0, bound);
    assert q.ctes[0..] == q.ctes;
    assert [InBody][1..] == [];
    FreeStepsConcat(scoping, n, CteSteps(q.ctes, 0), [InBody], bound);
  }

  lemma {:induction false} FreeNamesStep(scoping: Scoping, n: Node, s: Step, ps: seq<Path>, bound: set<Ident>)
    requires Child(n, s).Some? && Tables(Child(n, s).value, ps)
    ensures Tables(n, Prefixed(s, ps))
    ensures FreeNames(scoping, n, Prefixed(s, ps), bound) ==
      FreeNames(scoping, Child(n, s).value, ps, bound + StepBinds(scoping, n, s))
  {
    forall i | 0 <= i < |ps|
      ensures IsTable(n, Prefixed(s, ps)[i])
    {
      TableStep(n, s, ps[i]);
    }
    if ps == [] {
    } else {
      TableStep(n, s, ps[0]);
      FreeNamesStep(scoping, n, s, ps[1..], bound);
      assert Prefixed(s, ps)[1..] == Prefixed(s, ps[1..]);
      assert ([s] + ps[0])[1..] == ps[0];
      var binds, below := StepBinds(scoping, n, s), BoundAt(scoping, Child(n, s).value, ps[0]);
      assert bound + (binds + below) == bound + binds + below;
    }
  }

  /** The free references of the trees are those that the path to them does not bind. */
  lemma {:induction false} FreeByPosition(scoping: Scoping, n: Node, bound: set<Ident>)
    ensures Tables(n, Listing(n)) && Free(scoping, TreesOf(n), bound) == FreeNames(scoping, n, Listing(n), bound)
    decreases Size(n), |Steps(n)| + 1
  {
    ListingTables(n);
    StepsExact(n);
    if n.FactorNode? && n.factor.Table? {
      var none: seq<Path>, leaf: seq<Path> := [], [[]];
      FreeSingle(scoping, Ref(n.factor.name), bound);
      assert leaf[1..] == none && FreeNames(scoping, n, none, bound) == [];
      assert bound + {} == bound;
    } else if n.QueryNode? {
      FreeInQuery(scoping, n.query, bound);
      FreeSingle(scoping, TreeOf(n.query), bound);
      FreeStepsByPosition(scoping, n, Steps(n), bound);
    } else {
      TreesBySteps(n);
      FreeOutsideQueries(scoping, n, Steps(n), bound);
      FreeStepsByPosition(scoping, n, Steps(n), bound);
    }
  }

  lemma {:induction false} FreeStepsByPosition(scoping: Scoping, n: Node, ss: seq<Step>, bound: set<Ident>)
    requires Lead(n, ss)
    ensures Tables(n, ListingSteps(n, ss))
    ensures FreeSteps(scoping, n, ss, bound) == FreeNames(scoping, n, ListingSteps(n, ss), bound)
    decreases Size(n), |ss|
  {
    StepsTables(n, ss);
    if ss == [] {
    } else {
      var c := Child(n, ss[0]).value;
      ChildSmaller(n, ss[0]);
      StepsTables(n, ss[1..]);
      FreeByPosition(scoping, c, bound + StepBinds(scoping, n, ss[0]));
      FreeNamesStep(scoping, n, ss[0], Listing(c), bound);
      FreeStepsByPosition(scoping, n, ss[1..], bound);
      FreeNamesConcat(scoping, n, Prefixed(ss[0], Listing(c)), ListingSteps(n, ss[1..]), bound);
    }
  }

  /******* Comparing the two *******/

  ghost function Filter(ps: seq<Path>, keep: Path -> bool): seq<Path> {
    if ps == [] then [] else (if keep(ps[0]) then [ps[0]] else []) + Filter(ps[1..], keep)
  }

  lemma FilterCons(ps: seq<Path>, keep: Path -> bool)
    requires ps != []
    ensures Filter(ps, keep) == if keep(ps[0]) then [ps[0]] + Filter(ps[1..], keep) else Filter(ps[1..], keep)
  {
  }

  lemma {:induction false} FilterMember(ps: seq<Path>, keep: Path -> bool, p: Path)
    ensures p in Filter(ps, keep) <==> p in ps && keep(p)
  {
    if ps == [] {
    } else {
      FilterMember(ps[1..], keep, p);
    }
  }

  lemma {:induction false} FilterOrder(ps: seq<Path>, keep: Path -> bool)
    requires InTextOrder(ps)
    ensures InTextOrder(Filter(ps, keep))
  {
    if ps == [] {
    } else {
      FilterOrder(ps[1..], keep);
      forall p, q | p in [ps[0]] && q in Filter(ps[1..], keep)
        ensures PathLt(p, q)
      {
        FilterMember(ps[1..], keep, q);
        var j :| 0 <= j < |ps| - 1 && ps[1..][j] == q;
        assert PathLt(ps[0], ps[j + 1]);
      }
      OrderConcat(if keep(ps[0]) then [ps[0]] else [], Filter(ps[1..], keep));
    }
  }

  /** Keeping less gives as many only if nothing is missing. */
  lemma {:induction false} FilterFewer(ps: seq<Path>, few: Path -> bool, many: Path -> bool)
    requires forall p | p in ps && few(p) :: many(p)
    ensures |Filter(ps, few)| <= |Filter(ps, many)|
    ensures |Filter(ps, few)| == |Filter(ps, many)| <==> forall p | p in ps && many(p) :: few(p)
    ensures (forall p | p in ps && many(p) :: few(p)) ==> Filter(ps, few) == Filter(ps, many)
  {
    if ps == [] {
    } else {
      assert ps[0] in ps && forall p :: p in ps <==> p == ps[0] || p in ps[1..];
      FilterFewer(ps[1..], few, many);
    }
  }

  lemma NamesCons(n: Node, p: Path, ps: seq<Path>)
    requires IsTable(n, p) && Tables(n, ps)
    ensures Tables(n, [p] + ps) && NamesAt(n, [p] + ps) == [NameAt(n, p)] + NamesAt(n, ps)
  {
    assert ([p] + ps)[1..] == ps;
  }

  ghost function Surviving(q: Query): Path -> bool {
    p => SurvivesAt(q, p)
  }

  ghost function Unbound(scoping: Scoping, q: Query): Path -> bool {
    p => FreeAt(scoping, q, p)
  }

  lemma {:induction false} KeptAsFilter(q: Query, ps: seq<Path>)
    requires Tables(QueryNode(q), ps)
    ensures var n, kept := QueryNode(q), Filter(ps, Surviving(q));
      Tables(n, kept) && KeptNames(n, ps, {}) == NamesAt(n, kept)
  {
    if ps == [] {
    } else {
      var n, p := QueryNode(q), ps[0];
      KeptAsFilter(q, ps[1..]);
      FilterCons(ps, Surviving(q));
      assert Surviving(q)(p) <==> !RemovedAt(n, p, {});
      assert KeptNames(n, ps, {}) ==
        if Surviving(q)(p) then [NameAt(n, p)] + KeptNames(n, ps[1..], {}) else KeptNames(n, ps[1..], {});
      NamesCons(n, p, Filter(ps[1..], Surviving(q)));
    }
  }

  lemma {:induction false} FreeAsFilter(scoping: Scoping, q: Query, ps: seq<Path>)
    requires Tables(QueryNode(q), ps)
    ensures var n, free := QueryNode(q), Filter(ps, Unbound(scoping, q));
      Tables(n, free) && FreeNames(scoping, n, ps, {}) == NamesAt(n, free)
  {
    if ps == [] {
    } else {
      var n, p := QueryNode(q), ps[0];
      FreeAsFilter(scoping, q, ps[1..]);
      assert {} + BoundAt(scoping, n, p) == BoundAt(scoping, n, p);
      FilterCons(ps, Unbound(scoping, q));
      assert Unbound(scoping, q)(p) <==> !Removable(NameAt(n, p), BoundAt(scoping, n, p));
      assert FreeNames(scoping, n, ps, {}) ==
        (if Unbound(scoping, q)(p) then [NameAt(n, p)] else []) + FreeNames(scoping, n, ps[1..], {});
      NamesCons(n, p, Filter(ps[1..], Unbound(scoping, q)));
    }
  }

  /** What is in scope at a position is defined by a query around it. */
  lemma {:induction false} BoundIsDefined(scoping: Scoping, n: Node, p: Path, a: Ident)
    requires a in BoundAt(scoping, n, p)
    ensures DefinedLater(n, p, a)
    decreases |p|
  {
    var s := p[0];
    if a in StepBinds(scoping, n, s) {
      assert DefinesAt(n, [], a) && [] <= p;
    } else {
      BoundIsDefined(scoping, Child(n, s).value, p[1..], a);
      var r :| DefinesAt(Child(n, s).value, r, a) && (r <= p[1..] || PathLt(p[1..], r));
      DefinesStep(n, s, r, a);
      assert p == [s] + p[1..] && ([s] + r)[1..] == r;
      assert [s] + r <= p || PathLt(p, [s] + r);
    }
  }

  lemma SurvivorsAreFree(scoping: Scoping, q: Query, p: Path)
    requires SurvivesAt(q, p)
    ensures FreeAt(scoping, q, p)
  {
    var n := QueryNode(q);
    if Removable(NameAt(n, p), BoundAt(scoping, n, p)) {
      BoundIsDefined(scoping, n, p, NameAt(n, p)[0]);
    }
  }

  /** The positions are exactly those that survive, in the order of the text. */
  ghost predicate ListsSurvivors(q: Query, ps: seq<Path>) {
    InTextOrder(ps) && Tables(QueryNode(q), ps) && forall p :: p in ps <==> SurvivesAt(q, p)
  }

  /** The positions are exactly those that no WITH clause binds, in the order of the text. */
  ghost predicate ListsFree(scoping: Scoping, q: Query, ps: seq<Path>) {
    InTextOrder(ps) && Tables(QueryNode(q), ps) && forall p :: p in ps <==> FreeAt(scoping, q, p)
  }

  ghost function Survivors(q: Query): seq<Path> {
    Filter(Listing(QueryNode(q)), Surviving(q))
  }

  ghost function FreePaths(scoping: Scoping, q: Query): seq<Path> {
    Filter(Listing(QueryNode(q)), Unbound(scoping, q))
  }

  lemma SurvivorsListed(q: Query)
    ensures ListsSurvivors(q, Survivors(q))
    ensures ExtractOne(TreeOf(q), []) == NamesAt(QueryNode(q), Survivors(q))
  {
    var n := QueryNode(q);
    var all, keep := Listing(n), Surviving(q);
    ListedInOrder(n);
    FilterOrder(all, keep);
    forall p
      ensures p in Survivors(q) <==> SurvivesAt(q, p)
    {
      FilterMember(all, keep, p);
      ListedIff(n, p);
    }
    KeptByPosition(n, {});
    KeptAsFilter(q, all);
    KeptSingle(TreeOf(q), {});
    ExtractOneKeeps(TreeOf(q), [], {});
    WithoutNothing(ExtractOne(TreeOf(q), []));
  }

  lemma FreeListed(scoping: Scoping, q: Query)
    ensures ListsFree(scoping, q, FreePaths(scoping, q))
    ensures FreeOf(scoping, TreeOf(q), {}) == NamesAt(QueryNode(q), FreePaths(scoping, q))
  {
    var n := QueryNode(q);
    var all, keep := Listing(n), Unbound(scoping, q);
    ListedInOrder(n);
    FilterOrder(all, keep);
    forall p
      ensures p in FreePaths(scoping, q) <==> FreeAt(scoping, q, p)
    {
      FilterMember(all, keep, p);
      ListedIff(n, p);
    }
    FreeByPosition(scoping, n, {});
    FreeAsFilter(scoping, q, all);
    FreeSingle(scoping, TreeOf(q), {});
  }

  /** Extraction gives the names at exactly the free positions, in the order of the text, if and only
      if no free reference has the name of an alias that is defined around it or after it. */
  lemma ExtractsPositionsIff(scoping: Scoping, q: Query)
    ensures ListsSurvivors(q, Survivors(q)) && ListsFree(scoping, q, FreePaths(scoping, q))
    ensures ExtractOne(TreeOf(q), []) == NamesAt(QueryNode(q), Survivors(q))
    ensures NamesAt(QueryNode(q), Survivors(q)) == NamesAt(QueryNode(q), FreePaths(scoping, q)) <==>
      forall p | FreeAt(scoping, q, p) :: SurvivesAt(q, p)
  {
    SurvivorsListed(q);
    FreeListed(scoping, q);
    var all := Listing(QueryNode(q));
    forall p | p in all && SurvivesAt(q, p)
      ensures FreeAt(scoping, q, p)
    {
      SurvivorsAreFree(scoping, q, p);
    }
    FilterFewer(all, Surviving(q), Unbound(scoping, q));
    forall p | FreeAt(scoping, q, p)
      ensures p in all
    {
      ListedIff(QueryNode(q), p);
    }
  }

  /** What one part of a query does to the list: the aliases that are defined in it leave the list,
      and the names at its positions are added, except where one of those aliases is defined around
      the position or after it. */
  ghost predicate Collected(n: Node, before: seq<ObjectName>, after: seq<ObjectName>) {
    exists s: set<Ident> ::
      && (forall a :: a in s <==> Defined(n, a))
      && Tables(n, Listing(n)) && after == Without(s, before) + KeptNames(n, Listing(n), {})
  }

  lemma PartCollected(n: Node, acc: seq<ObjectName>)
    ensures Collected(n, acc, Extract(TreesOf(n), acc))
  {
    var f := TreesOf(n);
    ExtractKeeps(f, acc, {});
    WithoutNothing(Extract(f, acc));
    KeptByPosition(n, {});
    assert {} + AliasesIn(f) == AliasesIn(f);
    forall a
      ensures a in AliasesIn(f) <==> Defined(n, a)
    {
      AliasesDefined(n, a);
    }
  }
}
