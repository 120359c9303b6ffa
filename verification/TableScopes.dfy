/**
 Table references and the WITH clauses around them.  A query is reduced to a
 tree of references and scopes; extraction collects references into one list
 and, at the end of each scope, removes the aliases of the scope from all of it.
 */
module TableScopes {
  import opened Graphs

  type Ident = string
  type ObjectName = seq<Ident>

  /** A reference, or a query with its WITH clause: one tree for each alias, and the body. */
  datatype Tree =
    | Ref(name: ObjectName)
    | Scope(recursive: bool, aliases: seq<Ident>, ctes: seq<Tree>, body: seq<Tree>)

  /** Names of one part that are in the set can be removed, others cannot. */
  predicate Removable(name: ObjectName, s: set<Ident>) {
    |name| == 1 && name[0] in s
  }

  function Without(s: set<Ident>, names: seq<ObjectName>): seq<ObjectName> {
    if names == [] then []
    else
      var n := |names| - 1;
      if Removable(names[n], s) then Without(s, names[..n]) else Without(s, names[..n]) + [names[n]]
  }

  /** Collecting into one list and removing the aliases of each scope from all of it. */
  function Extract(f: seq<Tree>, acc: seq<ObjectName>): seq<ObjectName>
    decreases f
  {
    if f == [] then acc else Extract(f[1..], ExtractOne(f[0], acc))
  }

  function ExtractOne(t: Tree, acc: seq<ObjectName>): seq<ObjectName>
    decreases t
  {
    match t
    case Ref(name) => acc + [name]
    case Scope(_, aliases, ctes, body) => Without(Elements(aliases), Extract(body, Extract(ctes, acc)))
  }

  /** All aliases that are defined somewhere. */
  function AliasesIn(f: seq<Tree>): set<Ident>
    decreases f
  {
    if f == [] then {} else AliasesOf(f[0]) + AliasesIn(f[1..])
  }

  function AliasesOf(t: Tree): set<Ident>
    decreases t
  {
    match t
    case Ref(_) => {}
    case Scope(_, aliases, ctes, body) => Elements(aliases) + AliasesIn(ctes) + AliasesIn(body)
  }

  /******* The references that are meant *******/

  /** Whether an alias is visible in the whole WITH clause, or only after its definition. */
  datatype Scoping = WholeClause | AfterDefinition

  /** The aliases of a WITH clause that its i-th definition can refer to. */
  function Visible(scoping: Scoping, recursive: bool, aliases: seq<Ident>, i: nat): (r: set<Ident>)
    ensures r <= Elements(aliases)
  {
    if scoping.WholeClause? || i >= |aliases| then Elements(aliases)
    else if recursive then Elements(aliases[..i + 1])
    else Elements(aliases[..i])
  }

  /** The references that no enclosing WITH clause binds, in order. */
  function Free(scoping: Scoping, f: seq<Tree>, bound: set<Ident>): seq<ObjectName>
    decreases f, 0
  {
    if f == [] then [] else FreeOf(scoping, f[0], bound) + Free(scoping, f[1..], bound)
  }

  function FreeOf(scoping: Scoping, t: Tree, bound: set<Ident>): seq<ObjectName>
    decreases t, 0
  {
    match t
    case Ref(name) => if Removable(name, bound) then [] else [name]
    case Scope(recursive, aliases, ctes, body) =>
      FreeInCtes(scoping, recursive, aliases, 0, ctes, bound) + Free(scoping, body, bound + Elements(aliases))
  }

  /** The free references of the definitions from the i-th on. */
  function FreeInCtes(
      scoping: Scoping, recursive: bool, aliases: seq<Ident>, i: nat, ctes: seq<Tree>,
      bound: set<Ident>): seq<ObjectName>
    decreases ctes, 1
  {
    if ctes == [] then []
    else
      FreeOf(scoping, ctes[0], bound + Visible(scoping, recursive, aliases, i)) +
      FreeInCtes(scoping, recursive, aliases, i + 1, ctes[1..], bound)
  }

  /******* When extraction finds them *******/

  /** Every reference whose name is removed later, by an enclosing scope or by one that comes
      after it, is bound where it stands.  The names in r are removed after all of f. */
  ghost predicate Clean(scoping: Scoping, f: seq<Tree>, r: set<Ident>, bound: set<Ident>)
    decreases f, 0
  {
    f == [] || (CleanOne(scoping, f[0], r + AliasesIn(f[1..]), bound) && Clean(scoping, f[1..], r, bound))
  }

  ghost predicate CleanOne(scoping: Scoping, t: Tree, r: set<Ident>, bound: set<Ident>)
    decreases t, 0
  {
    match t
    case Ref(name) => Removable(name, r) ==> Removable(name, bound)
    case Scope(recursive, aliases, ctes, body) =>
      && CleanCtes(scoping, recursive, aliases, 0, ctes, r + Elements(aliases) + AliasesIn(body), bound)
      && Clean(scoping, body, r + Elements(aliases), bound + Elements(aliases))
  }

  ghost predicate CleanCtes(
      scoping: Scoping, recursive: bool, aliases: seq<Ident>, i: nat, ctes: seq<Tree>, r: set<Ident>, bound: set<Ident>)
    decreases ctes, 1
  {
    ctes == [] || (
      && CleanOne(scoping, ctes[0], r + AliasesIn(ctes[1..]), bound + Visible(scoping, recursive, aliases, i))
      && CleanCtes(scoping, recursive, aliases, i + 1, ctes[1..], r, bound))
  }

  /******* Filtering *******/

  lemma {:induction false} WithoutConcat(s: set<Ident>, a: seq<ObjectName>, b: seq<ObjectName>)
    ensures Without(s, a + b) == Without(s, a) + Without(s, b)
  {
    if b == [] {
      assert a + b == a;
    } else {
      var n := |b| - 1;
      WithoutConcat(s, a, b[..n]);
      assert (a + b)[..|a + b| - 1] == a + b[..n];
    }
  }

  lemma {:induction false} WithoutTwice(s: set<Ident>, t: set<Ident>, names: seq<ObjectName>)
    ensures Without(s, Without(t, names)) == Without(s + t, names)
  {
    if names == [] {
    } else {
      var n := |names| - 1;
      WithoutTwice(s, t, names[..n]);
      if !Removable(names[n], t) {
        WithoutConcat(s, Without(t, names[..n]), [names[n]]);
        WithoutOne(s, names[n]);
      }
    }
  }

  lemma {:induction false} WithoutOne(s: set<Ident>, name: ObjectName)
    ensures Without(s, [name]) == if Removable(name, s) then [] else [name]
  {
    assert [name][..0] == [];
  }

  lemma {:induction false} WithoutNothing(names: seq<ObjectName>)
    ensures Without({}, names) == names
  {
    if names == [] {
    } else {
      WithoutNothing(names[..|names| - 1]);
    }
  }

  /******* What extraction keeps, reference by reference *******/

  /** The references of f that survive if afterwards the names in r are removed. */
  function Kept(f: seq<Tree>, r: set<Ident>): seq<ObjectName>
    decreases f
  {
    if f == [] then [] else KeptOf(f[0], r + AliasesIn(f[1..])) + Kept(f[1..], r)
  }

  function KeptOf(t: Tree, r: set<Ident>): seq<ObjectName>
    decreases t
  {
    match t
    case Ref(name) => if Removable(name, r) then [] else [name]
    case Scope(_, aliases, ctes, body) =>
      Kept(ctes, r + Elements(aliases) + AliasesIn(body)) + Kept(body, r + Elements(aliases))
  }

  lemma Associative<T>(a: seq<T>, b: seq<T>, c: seq<T>)
    ensures a + b + c == a + (b + c)
  {
  }

  lemma {:induction false} ExtractKeeps(f: seq<Tree>, acc: seq<ObjectName>, r: set<Ident>)
    ensures Without(r, Extract(f, acc)) == Without(r + AliasesIn(f), acc) + Kept(f, r)
    decreases f
  {
    if f == [] {
      assert r + {} == r;
    } else {
      var later := r + AliasesIn(f[1..]);
      ExtractKeeps(f[1..], ExtractOne(f[0], acc), r);
      ExtractOneKeeps(f[0], acc, later);
      assert later + AliasesOf(f[0]) == r + AliasesIn(f);
      Associative(Without(r + AliasesIn(f), acc), KeptOf(f[0], later), Kept(f[1..], r));
    }
  }

  lemma {:induction false} ExtractOneKeeps(t: Tree, acc: seq<ObjectName>, r: set<Ident>)
    ensures Without(r, ExtractOne(t, acc)) == Without(r + AliasesOf(t), acc) + KeptOf(t, r)
    decreases t
  {
    match t
    case Ref(name) =>
      WithoutConcat(r, acc, [name]);
      WithoutOne(r, name);
      assert r + {} == r;
    case Scope(_, aliases, ctes, body) =>
      var own := r + Elements(aliases);
      var inner := Extract(ctes, acc);
      WithoutTwice(r, Elements(aliases), Extract(body, inner));
      ExtractKeeps(body, inner, own);
      ExtractKeeps(ctes, acc, own + AliasesIn(body));
      assert own + AliasesIn(body) + AliasesIn(ctes) == r + AliasesOf(t);
      Associative(Without(r + AliasesOf(t), acc), Kept(ctes, own + AliasesIn(body)), Kept(body, own));
  }

  /******* Comparing what is kept with what is free *******/

  lemma RemovableMono(name: ObjectName, s: set<Ident>, t: set<Ident>)
    requires s <= t && Removable(name, s)
    ensures Removable(name, t)
  {
  }

  /** No more is kept than is free, and the same is kept exactly if the trees are clean. */
  lemma {:induction false} KeptIsFreeIff(scoping: Scoping, f: seq<Tree>, r: set<Ident>, bound: set<Ident>)
    requires bound <= r
    ensures var kept, free := Kept(f, r), Free(scoping, f, bound);
      && |kept| <= |free|
      && (|kept| == |free| <==> Clean(scoping, f, r, bound))
      && (Clean(scoping, f, r, bound) ==> kept == free)
    decreases f, 0
  {
    if f == [] {
    } else {
      KeptOfIsFreeIff(scoping, f[0], r + AliasesIn(f[1..]), bound);
      KeptIsFreeIff(scoping, f[1..], r, bound);
    }
  }

  lemma {:induction false} KeptOfIsFreeIff(scoping: Scoping, t: Tree, r: set<Ident>, bound: set<Ident>)
    requires bound <= r
    ensures var kept, free := KeptOf(t, r), FreeOf(scoping, t, bound);
      && |kept| <= |free|
      && (|kept| == |free| <==> CleanOne(scoping, t, r, bound))
      && (CleanOne(scoping, t, r, bound) ==> kept == free)
    decreases t, 0
  {
    match t
    case Ref(name) =>
      if Removable(name, bound) {
        RemovableMono(name, bound, r);
      }
    case Scope(recursive, aliases, ctes, body) =>
      var own := r + Elements(aliases);
      KeptInCtesIff(scoping, recursive, aliases, 0, ctes, own + AliasesIn(body), bound);
      KeptIsFreeIff(scoping, body, own, bound + Elements(aliases));
  }

  lemma {:induction false} KeptInCtesIff(
    scoping: Scoping, recursive: bool, aliases: seq<Ident>, i: nat, ctes: seq<Tree>, r: set<Ident>, bound: set<Ident>)
    requires bound + Elements(aliases) <= r
    ensures var kept, free := Kept(ctes, r), FreeInCtes(scoping, recursive, aliases, i, ctes, bound);
      && |kept| <= |free|
      && (|kept| == |free| <==> CleanCtes(scoping, recursive, aliases, i, ctes, r, bound))
      && (CleanCtes(scoping, recursive, aliases, i, ctes, r, bound) ==> kept == free)
    decreases ctes, 1
  {
    if ctes == [] {
    } else {
      KeptOfIsFreeIff(scoping, ctes[0], r + AliasesIn(ctes[1..]), bound + Visible(scoping, recursive, aliases, i));
      KeptInCtesIff(scoping, recursive, aliases, i + 1, ctes[1..], r, bound);
    }
  }

  /** Extraction yields exactly the free references, in order and with multiplicity, if and
      only if every reference that is removed later is bound where it stands. */
  lemma {:induction false} ExtractsFreeIff(scoping: Scoping, t: Tree)
    ensures ExtractOne(t, []) == FreeOf(scoping, t, {}) <==> CleanOne(scoping, t, {}, {})
    ensures |ExtractOne(t, [])| <= |FreeOf(scoping, t, {})|
  {
    ExtractOneKeeps(t, [], {});
    WithoutNothing(ExtractOne(t, []));
    KeptOfIsFreeIff(scoping, t, {}, {});
  }

  /******* A sufficient condition *******/

  /** No name in s is among the given references. */
  ghost predicate NoneOf(s: set<Ident>, names: seq<ObjectName>) {
    forall i | 0 <= i < |names| :: !Removable(names[i], s)
  }

  lemma NoneOfParts(s: set<Ident>, t: set<Ident>, a: seq<ObjectName>, b: seq<ObjectName>)
    requires NoneOf(s, a + b) && t <= s
    ensures NoneOf(t, a) && NoneOf(t, b)
  {
    forall i | 0 <= i < |a|
      ensures !Removable(a[i], t)
    {
      assert (a + b)[i] == a[i];
    }
    forall i | 0 <= i < |b|
      ensures !Removable(b[i], t)
    {
      assert (a + b)[|a| + i] == b[i];
    }
  }

  lemma {:induction false} NoClashClean(scoping: Scoping, f: seq<Tree>, r: set<Ident>, bound: set<Ident>)
    requires NoneOf(r + AliasesIn(f), Free(scoping, f, bound))
    ensures Clean(scoping, f, r, bound)
    decreases f, 0
  {
    if f == [] {
    } else {
      var all := r + AliasesIn(f);
      var head, tail := FreeOf(scoping, f[0], bound), Free(scoping, f[1..], bound);
      NoneOfParts(all, r + AliasesIn(f[1..]) + AliasesOf(f[0]), head, tail);
      NoneOfParts(all, r + AliasesIn(f[1..]), head, tail);
      NoClashCleanOne(scoping, f[0], r + AliasesIn(f[1..]), bound);
      NoClashClean(scoping, f[1..], r, bound);
    }
  }

  lemma {:induction false} NoClashCleanOne(scoping: Scoping, t: Tree, r: set<Ident>, bound: set<Ident>)
    requires NoneOf(r + AliasesOf(t), FreeOf(scoping, t, bound))
    ensures CleanOne(scoping, t, r, bound)
    decreases t, 0
  {
    match t
    case Ref(name) =>
      if !Removable(name, bound) {
        assert FreeOf(scoping, t, bound)[0] == name;
      }
    case Scope(recursive, aliases, ctes, body) =>
      var all, own := r + AliasesOf(t), r + Elements(aliases);
      var head, tail := FreeInCtes(scoping, recursive, aliases, 0, ctes, bound),
        Free(scoping, body, bound + Elements(aliases));
      NoneOfParts(all, own + AliasesIn(body) + AliasesIn(ctes), head, tail);
      NoneOfParts(all, own + AliasesIn(body), head, tail);
      NoClashCleanCtes(scoping, recursive, aliases, 0, ctes, own + AliasesIn(body), bound);
      NoClashClean(scoping, body, own, bound + Elements(aliases));
  }

  lemma {:induction false} NoClashCleanCtes(
    scoping: Scoping, recursive: bool, aliases: seq<Ident>, i: nat, ctes: seq<Tree>, r: set<Ident>, bound: set<Ident>)
    requires NoneOf(r + AliasesIn(ctes), FreeInCtes(scoping, recursive, aliases, i, ctes, bound))
    ensures CleanCtes(scoping, recursive, aliases, i, ctes, r, bound)
    decreases ctes, 1
  {
    if ctes == [] {
    } else {
      var all, seen := r + AliasesIn(ctes), bound + Visible(scoping, recursive, aliases, i);
      var head, tail := FreeOf(scoping, ctes[0], seen),
        FreeInCtes(scoping, recursive, aliases, i + 1, ctes[1..], bound);
      NoneOfParts(all, r + AliasesIn(ctes[1..]) + AliasesOf(ctes[0]), head, tail);
      NoneOfParts(all, r + AliasesIn(ctes[1..]), head, tail);
      NoClashCleanOne(scoping, ctes[0], r + AliasesIn(ctes[1..]), seen);
      NoClashCleanCtes(scoping, recursive, aliases, i + 1, ctes[1..], r, bound);
    }
  }

  /** If no alias is also the name of a free table, extraction is exact, however scopes nest
      and shadow each other, and whichever way aliases are scoped. */
  lemma {:induction false} NoClashExtractsFree(scoping: Scoping, t: Tree)
    requires NoneOf(AliasesOf(t), FreeOf(scoping, t, {}))
    ensures ExtractOne(t, []) == FreeOf(scoping, t, {})
  {
    assert {} + AliasesOf(t) == AliasesOf(t);
    NoClashCleanOne(scoping, t, {}, {});
    ExtractsFreeIff(scoping, t);
  }
}
