/** `find_dependencies`: a recursion over the recipes that fills a list, a dictionary and a file on its way. */
module Dependencies {
  /** What each recipe depends on, and what needs no recipe. */
  datatype Graph = Graph(depends: map<string, seq<string>>, provided: set<string>)

  function Filtered(ds: seq<string>, provided: set<string>): seq<string> {
    if ds == [] then []
    else (if ds[0] in provided then [] else [ds[0]]) + Filtered(ds[1..], provided)
  }

  /** The dependencies of a recipe that need one themselves; one that has no recipe is the end of its branch. */
  function DependsOf(g: Graph, rn: string): seq<string> {
    if rn in g.depends then Filtered(g.depends[rn], g.provided) else []
  }

  /** A recipe depends on something that is not provided anyway. */
  predicate Edge(g: Graph, a: string, b: string) { a in g.depends && b in g.depends[a] && b !in g.provided }

  lemma Grouped(a: seq<string>, b: seq<string>, c: seq<string>)
    ensures a + (b + c) == (a + b) + c
  {
  }

  /** Filtering keeps order and copies. */
  lemma {:induction false} FilteredAppend(a: seq<string>, b: seq<string>, provided: set<string>)
    ensures Filtered(a + b, provided) == Filtered(a, provided) + Filtered(b, provided)
    decreases |a|
  {
    if a == [] {
      assert a + b == b && Filtered(a, provided) == [];
    } else {
      assert (a + b)[1..] == a[1..] + b && (a + b)[0] == a[0];
      FilteredAppend(a[1..], b, provided);
      var one := if a[0] in provided then [] else [a[0]];
      Grouped(one, Filtered(a[1..], provided), Filtered(b, provided));
      assert Filtered(a, provided) == one + Filtered(a[1..], provided);
    }
  }

  /** ... of exactly what is not provided. */
  lemma {:induction false} FilteredIs(ds: seq<string>, provided: set<string>, d: string)
    ensures multiset(Filtered(ds, provided))[d] == if d in provided then 0 else multiset(ds)[d]
    ensures Filtered([d], provided) == if d in provided then [] else [d]
    decreases |ds|
  {
    assert [d][1..] == [];
    if ds != [] {
      var one := if ds[0] in provided then [] else [ds[0]];
      FilteredIs(ds[1..], provided, d);
      assert ds == [ds[0]] + ds[1..] && Filtered(ds, provided) == one + Filtered(ds[1..], provided);
    }
  }

  lemma DependsOfIs(g: Graph, a: string, b: string)
    ensures b in DependsOf(g, a) <==> Edge(g, a, b)
  {
    if a in g.depends {
      FilteredIs(g.depends[a], g.provided, b);
      assert b in DependsOf(g, a) <==> multiset(DependsOf(g, a))[b] > 0;
      assert b in g.depends[a] <==> multiset(g.depends[a])[b] > 0;
    }
  }

  /** No cycles: every dependency has a lower rank. */
  ghost predicate Ranked(g: Graph, rank: string -> nat) {
    forall a, b :: Edge(g, a, b) ==> rank(b) < rank(a)
  }

  // ---- reachability ---------------------------------------------------------------------------

  /** A way from one recipe to another, in one or more steps. */
  ghost predicate Way(g: Graph, way: seq<string>) {
    |way| >= 2 && forall i :: 0 <= i < |way| - 1 ==> Edge(g, way[i], way[i + 1])
  }

  ghost predicate Leads(g: Graph, way: seq<string>, from: string, to: string) {
    Way(g, way) && way[0] == from && way[|way| - 1] == to
  }

  ghost predicate Reachable(g: Graph, from: string, to: string) {
    exists way :: Leads(g, way, from, to)
  }

  lemma StepReaches(g: Graph, a: string, b: string)
    requires b in DependsOf(g, a)
    ensures Reachable(g, a, b)
  {
    DependsOfIs(g, a, b);
    assert Leads(g, [a, b], a, b);
  }

  lemma ReachesOn(g: Graph, a: string, b: string, c: string)
    requires b in DependsOf(g, a) && Reachable(g, b, c)
    ensures Reachable(g, a, c)
  {
    var way :| Leads(g, way, b, c);
    var longer := [a] + way;
    DependsOfIs(g, a, b);
    assert forall i :: 1 <= i < |longer| ==> longer[i] == way[i - 1];
    assert Leads(g, longer, a, c);
  }

  /** What can be reached is a dependency or reached from one. */
  lemma ReachedHow(g: Graph, a: string, c: string)
    requires Reachable(g, a, c)
    ensures c in DependsOf(g, a) || exists b :: b in DependsOf(g, a) && Reachable(g, b, c)
  {
    var way :| Leads(g, way, a, c);
    DependsOfIs(g, a, way[1]);
    if |way| > 2 {
      var shorter := way[1..];
      assert forall i :: 0 <= i < |shorter| ==> shorter[i] == way[i + 1];
      assert Leads(g, shorter, way[1], c);
    }
  }

  // ---- the file -------------------------------------------------------------------------------

  /** The lines a recipe starts with at a depth, and the one it ends with. */
  datatype Line = Entry(order: nat, name: string, alone: bool) | Errors(order: nat)

  /** The tree below a recipe, written out branch by branch; the recipe at the top has no lines itself. */
  ghost function Unfolded(g: Graph, rank: string -> nat, rn: string, order: nat): seq<Line>
    requires Ranked(g, rank)
    decreases rank(rn), 1, 0
  {
    var ds := DependsOf(g, rn);
    (if order > 1 then [Entry(order, rn, ds == [])] else []) + Branches(g, rank, ds, rank(rn), order + 1) +
    if order > 1 then [Errors(order)] else []
  }

  ghost function Branches(g: Graph, rank: string -> nat, ds: seq<string>, bound: nat, order: nat): seq<Line>
    requires Ranked(g, rank)
    decreases bound, 0, |ds|
  {
    if ds == [] || rank(ds[0]) >= bound then []
    else Unfolded(g, rank, ds[0], order) + Branches(g, rank, ds[1..], bound, order)
  }

  predicate Distinct(s: seq<string>) { forall i, j :: 0 <= i < j < |s| ==> s[i] != s[j] }

  /** What is in `ds` and not in `seen`, each once, in the order of its first occurrence. */
  function Unseen(seen: seq<string>, ds: seq<string>): seq<string>
    decreases |ds|
  {
    if ds == [] then []
    else if ds[0] in seen then Unseen(seen, ds[1..])
    else [ds[0]] + Unseen(seen + [ds[0]], ds[1..])
  }

  lemma NoneUnseen(seen: seq<string>)
    ensures seen + Unseen(seen, []) == seen
  {
  }

  lemma {:induction false} UnseenSnoc(seen: seq<string>, ds: seq<string>, d: string)
    ensures seen + Unseen(seen, ds + [d]) ==
            seen + Unseen(seen, ds) + if d in seen + Unseen(seen, ds) then [] else [d]
    decreases |ds|
  {
    if ds == [] {
      assert [] + [d] == [d] && [d][1..] == [];
      assert Unseen(seen, [d]) == if d in seen then [] else [d];
    } else {
      assert (ds + [d])[1..] == ds[1..] + [d];
      var more := if ds[0] in seen then seen else seen + [ds[0]];
      UnseenSnoc(more, ds[1..], d);
      UnseenHead(seen, ds);
      UnseenHead(seen, ds + [d]);
    }
  }

  lemma UnseenHead(seen: seq<string>, ds: seq<string>)
    requires ds != []
    ensures var more := if ds[0] in seen then seen else seen + [ds[0]];
            seen + Unseen(seen, ds) == more + Unseen(more, ds[1..])
  {
  }

  /** The first dependency without a recipe. */
  predicate FirstWithout(g: Graph, ds: seq<string>, i: nat) {
    i < |ds| && ds[i] !in g.depends && forall j :: 0 <= j < i ==> ds[j] in g.depends
  }

  /** The list, the dictionary and the file of one call of the script. */
  class Finder {
    const g: Graph
    const root: string
    var packages: seq<string>
    var recipeInfo: map<string, seq<string>>
    var manifest: seq<Line>

    constructor (g: Graph, root: string)
      requires root in g.depends
      ensures this.g == g && this.root == root && Valid() && packages == [] && manifest == []
    {
      this.g, this.root := g, root;
      packages, manifest := [], [];
      recipeInfo := map[root := Filtered(g.depends[root], g.provided)];
      new;
      FilteredTwice(g.depends[root], g.provided);
    }

    /** The dictionary holds the root and the listed packages, with what they depend on; none is listed twice. */
    ghost predicate Valid() reads this {
      && Distinct(packages) && (forall p :: p in recipeInfo <==> p == root || p in packages)
      && (forall p :: p in recipeInfo ==> p in g.depends && Filtered(recipeInfo[p], g.provided) == DependsOf(g, p))
    }

    /** Between two states, only what can be reached from a recipe was listed. */
    static ghost predicate Grew(g: Graph, rn: string, before: seq<string>, after: seq<string>) {
      && before <= after
      && forall p :: p in after && p !in before ==> Reachable(g, rn, p)
    }

    static ghost predicate Complete(g: Graph, rn: string, after: seq<string>) {
      forall p :: Reachable(g, rn, p) ==> p in after
    }

    /** One dependency more: listed, looked up and entered into the dictionary. */
    method ListOne(dep: string) returns (ok: bool)
      requires Valid() && dep !in packages
      modifies this`packages, this`recipeInfo
      ensures ok <==> dep in g.depends
      ensures packages == old(packages) + [dep] && (ok ==> Valid())
    {
      packages := packages + [dep];
      if dep !in g.depends { return false; }
      recipeInfo := recipeInfo[dep := g.depends[dep]];
      ok := true;
    }

    /** The first loop of `find_dependencies`: lists the dependencies not seen yet, in order and once. It fails on
        the first one without a recipe, which is the last it lists. */
    method ListNew(rn: string, depends: seq<string>) returns (ok: bool)
      requires Valid() && depends == DependsOf(g, rn)
      modifies this`packages, this`recipeInfo
      ensures ok <==> forall d :: d in depends ==> d in g.depends
      ensures ok ==> Valid() && Grew(g, rn, old(packages), packages) && forall d :: d in depends ==> d in packages
      ensures ok ==> packages == old(packages) + Unseen(old(packages), depends)
      ensures !ok ==> exists i :: FirstWithout(g, depends, i) &&
                                  packages == old(packages) + Unseen(old(packages), depends[..i + 1])
    {
      hide Reachable, DependsOf, Unseen, Valid, Grew;
      var i := 0;
      GrewNot(rn, packages);
      NoneUnseen(packages);
      assert depends[..0] == [];
      while i < |depends|
        invariant i <= |depends| && Valid() && Grew(g, rn, old(packages), packages)
        invariant forall j :: 0 <= j < i ==> depends[j] in packages
        invariant packages == old(packages) + Unseen(old(packages), depends[..i])
      {
        var dep := depends[i];
        assert depends[..i + 1] == depends[..i] + [dep];
        UnseenSnoc(old(packages), depends[..i], dep);
        ListedResolve();
        if dep !in packages {
          ghost var was := packages;
          ok := ListOne(dep);
          if !ok {
            assert FirstWithout(g, depends, i);
            return;
          }
          StepReaches(g, rn, dep);
          Listed(old(packages), was, dep, rn);
        }
        i := i + 1;
      }
      assert depends[..i] == depends;
      ListedResolve();
      ok := true;
    }

    lemma Known()
      requires Valid()
      ensures forall p, d :: p in recipeInfo ==> (d in recipeInfo[p] && d !in g.provided <==> Edge(g, p, d))
    {
      forall p, d | p in recipeInfo ensures d in recipeInfo[p] && d !in g.provided <==> Edge(g, p, d) {
        DependsOfIs(g, p, d);
        FilteredIs(recipeInfo[p], g.provided, d);
        assert d in recipeInfo[p] <==> multiset(recipeInfo[p])[d] > 0;
        assert d in Filtered(recipeInfo[p], g.provided) <==> multiset(Filtered(recipeInfo[p], g.provided))[d] > 0;
      }
    }

    lemma ListedResolve()
      requires Valid()
      ensures forall p :: p in packages ==> p in g.depends
    {
    }

    lemma Listed(before: seq<string>, was: seq<string>, dep: string, rn: string)
      requires Grew(g, rn, before, was) && Reachable(g, rn, dep)
      ensures Grew(g, rn, before, was + [dep])
    {
      hide Reachable;
    }

    /** The loop over `data.depends`. */
    method NotProvided(ds: seq<string>) returns (depends: seq<string>)
      ensures depends == Filtered(ds, g.provided)
    {
      depends := [];
      var i := 0;
      while i < |ds|
        invariant 0 <= i <= |ds| && depends == Filtered(ds[..i], g.provided)
      {
        assert ds[..i + 1] == ds[..i] + [ds[i]];
        FilteredAppend(ds[..i], [ds[i]], g.provided);
        FilteredIs(ds, g.provided, ds[i]);
        if ds[i] !in g.provided { depends := depends + [ds[i]]; }
        i := i + 1;
      }
      assert ds[..i] == ds;
    }

    /** Lists everything that can be reached from a recipe and writes the tree below it; it fails exactly if
        something that can be reached has no recipe. */
    method Find(rn: string, order: nat, ghost rank: string -> nat) returns (ok: bool)
      requires Valid() && Ranked(g, rank) && rn in recipeInfo
      modifies this`packages, this`recipeInfo, this`manifest
      ensures ok <==> AllResolve(g, rn)
      ensures ok ==> Valid() && Grew(g, rn, old(packages), packages) && Complete(g, rn, packages)
      ensures ok ==> manifest == old(manifest) + Unfolded(g, rank, rn, order)
      decreases rank(rn), 1
    {
      hide Reachable, Unfolded, Branches, Finder.Grew, Finder.Complete, AllResolve, Unseen, FirstWithout;
      var depends := NotProvided(recipeInfo[rn]);
      assert depends == DependsOf(g, rn);
      hide Valid, DependsOf, Filtered;
      RankDown(rn, rank);
      ghost var was, start := manifest, if order > 1 then [Entry(order, rn, depends == [])] else [];
      if order > 1 { manifest := manifest + [Entry(order, rn, depends == [])]; }
      assert manifest == was + start;
      ok := ListNew(rn, depends);
      if !ok {
        DependencyDoesNotResolve(rn, depends);
        return;
      }
      ghost var listed := packages;
      ok := Recurse(rn, depends, order + 1, rank);
      if !ok { return; }
      assert Grew(g, rn, old(packages), packages) by { GrewTwice(rn, old(packages), listed, packages); }
      if order > 1 { manifest := manifest + [Errors(order)]; }
      AllReached(rn, packages);
      Resolves(rn);
      UnfoldedIs(was, rn, order, rank);
    }

    /** The second loop: the same for every dependency. */
    method Recurse(rn: string, depends: seq<string>, order: nat, ghost rank: string -> nat) returns (ok: bool)
      requires Valid() && Ranked(g, rank) && depends == DependsOf(g, rn) && forall d :: d in depends ==> d in packages
      requires forall d :: d in depends ==> rank(d) < rank(rn)
      modifies this`packages, this`recipeInfo, this`manifest
      ensures !ok ==> !AllResolve(g, rn)
      ensures ok ==> Valid() && Grew(g, rn, old(packages), packages) && old(packages) <= packages
      ensures ok ==> forall d :: d in depends ==> Complete(g, d, packages)
      ensures ok ==> manifest == old(manifest) + Branches(g, rank, depends, rank(rn), order)
      decreases rank(rn), 0
    {
      hide Reachable, Unfolded, Branches, Finder.Grew, Finder.Complete, AllResolve, DependsOf;
      ghost var goal := manifest + Branches(g, rank, depends, rank(rn), order);
      var i := 0;
      assert depends[0..] == depends;
      GrewNot(rn, packages);
      while i < |depends|
        invariant i <= |depends| && Valid() && Grew(g, rn, old(packages), packages) && old(packages) <= packages
        invariant forall j :: 0 <= j < i ==> Complete(g, depends[j], packages)
        invariant manifest + Branches(g, rank, depends[i..], rank(rn), order) == goal
      {
        var dep := depends[i];
        ghost var before, m := packages, manifest;
        assert dep in old(packages) && dep in packages;
        BranchesStep(m, depends, i, rank(rn), order, rank);
        ok := Find(dep, order, rank);
        if !ok {
          BranchDoesNotResolve(rn, dep);
          return;
        }
        GrewOn(rn, dep, old(packages), before, packages);
        forall j | 0 <= j < i ensures Complete(g, depends[j], packages) {
          StillComplete(depends[j], before, packages);
        }
        i := i + 1;
      }
      BranchesEnd(manifest, depends[i..], rank(rn), order, rank);
      ok := true;
    }

    static ghost predicate AllResolve(g: Graph, rn: string) { forall p :: Reachable(g, rn, p) ==> p in g.depends }

    lemma RankDown(rn: string, rank: string -> nat)
      requires Ranked(g, rank)
      ensures forall d :: d in DependsOf(g, rn) ==> rank(d) < rank(rn)
    {
      forall d | d in DependsOf(g, rn) ensures rank(d) < rank(rn) { DependsOfIs(g, rn, d); }
    }

    lemma DoesNotResolve(rn: string, d: string, p: string)
      requires d in DependsOf(g, rn) && p !in g.depends && (p == d || Reachable(g, d, p))
      ensures !AllResolve(g, rn)
    {
      if p == d { StepReaches(g, rn, d); } else { ReachesOn(g, rn, d, p); }
    }

    lemma DependencyDoesNotResolve(rn: string, ds: seq<string>)
      requires ds == DependsOf(g, rn) && !(forall d :: d in ds ==> d in g.depends)
      ensures !AllResolve(g, rn)
    {
      var d :| d in ds && d !in g.depends;
      DoesNotResolve(rn, d, d);
    }

    lemma BranchDoesNotResolve(rn: string, dep: string)
      requires dep in DependsOf(g, rn) && !AllResolve(g, dep)
      ensures !AllResolve(g, rn)
    {
      var p :| Reachable(g, dep, p) && p !in g.depends;
      DoesNotResolve(rn, dep, p);
    }

    lemma Resolves(rn: string)
      requires Valid() && Complete(g, rn, packages)
      ensures AllResolve(g, rn)
    {
      hide Reachable;
    }

    lemma GrewNot(rn: string, packages: seq<string>)
      ensures Grew(g, rn, packages, packages)
    {
    }

    lemma GrewTwice(rn: string, a: seq<string>, b: seq<string>, c: seq<string>)
      requires Grew(g, rn, a, b) && Grew(g, rn, b, c)
      ensures Grew(g, rn, a, c)
    {
      hide Reachable;
    }

    lemma StillComplete(d: string, before: seq<string>, after: seq<string>)
      requires Complete(g, d, before) && before <= after
      ensures Complete(g, d, after)
    {
      hide Reachable;
    }

    lemma BranchesStep(m: seq<Line>, ds: seq<string>, i: nat, bound: nat, order: nat, rank: string -> nat)
      requires Ranked(g, rank) && i < |ds| && rank(ds[i]) < bound
      ensures m + Branches(g, rank, ds[i..], bound, order) ==
              m + Unfolded(g, rank, ds[i], order) + Branches(g, rank, ds[i + 1..], bound, order)
    {
      hide Unfolded;
      assert ds[i..][0] == ds[i] && ds[i..][1..] == ds[i + 1..];
    }

    lemma BranchesEnd(m: seq<Line>, ds: seq<string>, bound: nat, order: nat, rank: string -> nat)
      requires Ranked(g, rank)
      ensures ds == [] ==> m + Branches(g, rank, ds, bound, order) == m
    {
    }

    lemma UnfoldedIs(was: seq<Line>, rn: string, order: nat, rank: string -> nat)
      requires Ranked(g, rank)
      ensures var ds := DependsOf(g, rn);
              was + (if order > 1 then [Entry(order, rn, ds == [])] else []) +
              Branches(g, rank, ds, rank(rn), order + 1) + (if order > 1 then [Errors(order)] else []) ==
              was + Unfolded(g, rank, rn, order)
      ensures order <= 1 ==> was + [] + Branches(g, rank, DependsOf(g, rn), rank(rn), order + 1) ==
                             was + Unfolded(g, rank, rn, order)
    {
      hide Branches, DependsOf;
      var ds := DependsOf(g, rn);
      assert order <= 1 ==> [] + Branches(g, rank, ds, rank(rn), order + 1) + [] == Branches(g, rank, ds, rank(rn), order + 1);
    }

    lemma GrewOn(rn: string, dep: string, before: seq<string>, middle: seq<string>, after: seq<string>)
      requires dep in DependsOf(g, rn) && Grew(g, rn, before, middle) && Grew(g, dep, middle, after)
      ensures Grew(g, rn, before, after) && middle <= after
    {
      hide Reachable;
      forall p | p in after && p !in before ensures Reachable(g, rn, p) {
        if p !in middle { ReachesOn(g, rn, dep, p); }
      }
    }

    /** What is complete for every dependency, and lists it, is complete. */
    lemma AllReached(rn: string, after: seq<string>)
      requires forall d :: d in DependsOf(g, rn) ==> d in after && Complete(g, d, after)
      ensures Complete(g, rn, after)
    {
      hide Reachable;
      forall p | Reachable(g, rn, p) ensures p in after { ReachedHow(g, rn, p); }
    }
  }

  lemma {:induction false} FilteredTwice(ds: seq<string>, provided: set<string>)
    ensures Filtered(Filtered(ds, provided), provided) == Filtered(ds, provided)
    decreases |ds|
  {
    if ds != [] {
      FilteredTwice(ds[1..], provided);
      var rest := Filtered(ds[1..], provided);
      if ds[0] in provided {
        assert Filtered(ds, provided) == rest;
      } else {
        assert Filtered(ds, provided) == [ds[0]] + rest && ([ds[0]] + rest)[1..] == rest;
      }
    }
  }

  /** The whole run: the packages end up as exactly the recipes that can be reached in one or more steps, none twice,
      and the file as the tree. */
  method FindAll(g: Graph, root: string, ghost rank: string -> nat)
    returns (ok: bool, packages: seq<string>, recipeInfo: map<string, seq<string>>, manifest: seq<Line>)
    requires root in g.depends && Ranked(g, rank)
    ensures ok <==> Finder.AllResolve(g, root)
    ensures ok ==> Distinct(packages) && root !in packages && forall p :: p in packages <==> Reachable(g, root, p)
    ensures ok ==> forall p :: p in recipeInfo <==> p == root || Reachable(g, root, p)
    ensures ok ==> forall p, d :: p in recipeInfo ==> (d in recipeInfo[p] && d !in g.provided <==> Edge(g, p, d))
    ensures ok ==> manifest == Unfolded(g, rank, root, 1)
  {
    var finder := new Finder(g, root);
    ok := finder.Find(root, 1, rank);
    packages, recipeInfo, manifest := finder.packages, finder.recipeInfo, finder.manifest;
    if ok { finder.Known(); }
    NoWayBack(g, rank, root);
    assert [] + Unfolded(g, rank, root, 1) == Unfolded(g, rank, root, 1);
  }

  lemma NoWayBack(g: Graph, rank: string -> nat, a: string)
    requires Ranked(g, rank)
    ensures !Reachable(g, a, a)
  {
    if way :| Leads(g, way, a, a) { Down(g, rank, way); }
  }

  lemma {:induction false} Down(g: Graph, rank: string -> nat, way: seq<string>)
    requires Ranked(g, rank) && Way(g, way)
    ensures rank(way[|way| - 1]) < rank(way[0])
    decreases |way|
  {
    assert Edge(g, way[0], way[0 + 1]);
    if |way| > 2 {
      assert forall i :: 0 <= i < |way| - 1 ==> way[1..][i] == way[i + 1];
      Down(g, rank, way[1..]);
    }
  }
}
